/**
 The two stream translators: OpenAI-style chat chunks to Anthropic-style message
 events, and back. Frames are the decoded JSON payloads of the event stream.
 */
module StreamTranslation {
  import opened Wrappers

  datatype CallDelta = CallDelta(index: int, id: Option<string>, name: Option<string>, arguments: string)

  /** An absent list of calls is empty; absent arguments and finish reasons are "". */
  datatype ChatChunk = ChatChunk(id: Option<string>, reasoning: Option<string>, content: Option<string>,
                                 calls: seq<CallDelta>, tokens: Option<nat>, finish: string)

  datatype ChatFrame = Chunk(chunk: ChatChunk) | Failure(error: string) | Done

  datatype BlockKind = Thinking | Text | ToolUse(id: Option<string>, name: Option<string>)

  datatype Delta = ThinkingDelta(text: string) | TextDelta(text: string) | JsonDelta(json: string)

  datatype MessageEvent =
    | MessageStart(id: Option<string>)
    | BlockStart(index: int, kind: BlockKind)
    | BlockDelta(index: int, delta: Delta)
    | BlockStop(index: int)
    | MessageDelta(stop: string, tokens: Option<nat>)
    | MessageStop
    | ErrorEvent(error: string)
    | Unknown

  function StopReason(finish: string): string {
    if finish == "tool_calls" then "tool_use"
    else if finish == "length" then "max_tokens"
    else if finish == "content_filter" then "refusal"
    else "end_turn"
  }

  function FinishReason(stop: string): (r: string)
    ensures r != ""
  {
    if stop == "tool_use" then "tool_calls"
    else if stop == "max_tokens" then "length"
    else if stop == "refusal" then "content_filter"
    else "stop"
  }

  // ---------- Chat chunks to message events

  /** The translator's variables between two chunks. */
  datatype Writer = Writer(started: bool, id: string, reasoning: Option<int>, text: Option<int>,
                           tools: map<int, int>, next: nat, tokens: nat)

  datatype Written = Written(writer: Writer, events: seq<MessageEvent>)

  const FRESH := Writer(false, "msg_z_prov", None, None, map[], 0, 0)

  function Begin(w: Writer, id: Option<string>): Written {
    var named := w.(id := if id.Some? then id.value else w.id);
    if named.started then Written(named, []) else Written(named.(started := true), [MessageStart(Some(named.id))])
  }

  function Think(w: Writer, reasoning: Option<string>): Written {
    if reasoning.None? then Written(w, [])
    else if w.reasoning.Some? then Written(w, [BlockDelta(w.reasoning.value, ThinkingDelta(reasoning.value))])
    else Written(w.(reasoning := Some(w.next), next := w.next + 1),
                 [BlockStart(w.next, Thinking), BlockDelta(w.next, ThinkingDelta(reasoning.value))])
  }

  function Say(w: Writer, content: Option<string>): Written {
    if content.None? then Written(w, [])
    else if w.text.Some? then Written(w, [BlockDelta(w.text.value, TextDelta(content.value))])
    else Written(w.(text := Some(w.next), next := w.next + 1),
                 [BlockStart(w.next, Text), BlockDelta(w.next, TextDelta(content.value))])
  }

  function Invoke(w: Writer, call: CallDelta): Written {
    var entry := if call.index in w.tools then Written(w, [])
                  else Written(w.(tools := w.tools[call.index := w.next], next := w.next + 1),
                               [BlockStart(w.next, ToolUse(call.id, call.name))]);
    if call.arguments == "" then entry
    else Written(entry.writer, entry.events + [BlockDelta(entry.writer.tools[call.index], JsonDelta(call.arguments))])
  }

  function InvokeAll(w: Writer, calls: seq<CallDelta>): Written {
    if calls == [] then Written(w, [])
    else
      var front := InvokeAll(w, calls[..|calls| - 1]);
      var last := Invoke(front.writer, calls[|calls| - 1]);
      Written(last.writer, front.events + last.events)
  }

  function Stops(from: nat, end: nat): seq<MessageEvent>
    requires from <= end
    decreases end - from
  {
    if from == end then [] else [BlockStop(from)] + Stops(from + 1, end)
  }

  function Conclude(w: Writer, tokens: Option<nat>, finish: string): Written {
    var counted := w.(tokens := if tokens.Some? then tokens.value else w.tokens);
    if finish == "" then Written(counted, [])
    else Written(counted, Stops(0, w.next) + [MessageDelta(StopReason(finish), Some(counted.tokens))])
  }

  function Then(first: Written, second: Written): Written {
    Written(second.writer, first.events + second.events)
  }

  /** What one chunk makes the translator emit. */
  function Write(w: Writer, chunk: ChatChunk): Written {
    var a := Begin(w, chunk.id);
    var b := Then(a, Think(a.writer, chunk.reasoning));
    var c := Then(b, Say(b.writer, chunk.content));
    var d := Then(c, InvokeAll(c.writer, chunk.calls));
    Then(d, Conclude(d.writer, chunk.tokens, chunk.finish))
  }

  function Translate(w: Writer, frames: seq<ChatFrame>): seq<MessageEvent>
    decreases |frames|
  {
    if frames == [] || frames[0].Done? then
      (if w.started then [] else [MessageStart(Some(w.id))]) + [MessageStop]
    else match frames[0]
      case Failure(error) => [ErrorEvent(error)]
      case Chunk(chunk) =>
        var written := Write(w, chunk);
        written.events + Translate(written.writer, frames[1..])
  }

  function ToAnthropic(frames: seq<ChatFrame>): seq<MessageEvent> {
    Translate(FRESH, frames)
  }

  // ---------- Message events to chat chunks

  datatype Reader = Reader(id: string, tools: map<int, nat>)

  const BLANK := ChatChunk(None, None, None, [], None, "")

  datatype Shown = Shown(reader: Reader, frame: Option<ChatFrame>)

  function Relabel(r: Reader, event: MessageEvent): Shown {
    match event
    case MessageStart(id) =>
      var named := r.(id := if id.Some? then id.value else r.id);
      Shown(named, Some(Chunk(BLANK.(id := Some(named.id)))))
    case BlockStart(index, ToolUse(id, name)) =>
      var position := |r.tools|;
      Shown(r.(tools := r.tools[index := position]),
            Some(Chunk(BLANK.(id := Some(r.id), calls := [CallDelta(position, id, name, "")]))))
    case BlockDelta(_, TextDelta(text)) => Shown(r, Some(Chunk(BLANK.(id := Some(r.id), content := Some(text)))))
    case BlockDelta(_, ThinkingDelta(text)) => Shown(r, Some(Chunk(BLANK.(id := Some(r.id), reasoning := Some(text)))))
    case BlockDelta(index, JsonDelta(json)) =>
      var position := if index in r.tools then r.tools[index] else index;
      Shown(r, Some(Chunk(BLANK.(id := Some(r.id), calls := [CallDelta(position, None, None, json)]))))
    case MessageDelta(stop, tokens) =>
      Shown(r, Some(Chunk(BLANK.(id := Some(r.id), tokens := tokens, finish := FinishReason(stop)))))
    case ErrorEvent(error) => Shown(r, Some(Failure(error)))
    case _ => Shown(r, None)
  }

  function Restore(r: Reader, events: seq<MessageEvent>): seq<ChatFrame>
    decreases |events|
  {
    if events == [] then [Done]
    else
      var shown := Relabel(r, events[0]);
      (if shown.frame.Some? then [shown.frame.value] else []) + Restore(shown.reader, events[1..])
  }

  function ToChat(events: seq<MessageEvent>): seq<ChatFrame> {
    Restore(Reader("chatcmpl_z_prov", map[]), events)
  }

  // ---------- What a chat stream means

  datatype Call = Call(id: Option<string>, name: Option<string>, arguments: string)

  datatype Finish = Finish(reason: string, tokens: nat)

  /** Accumulated text, reasoning and calls. `order` holds the stream's call
      indexes in order of first appearance, `calls` the calls in that order. */
  datatype Meaning = Meaning(text: string, reasoning: string, order: seq<int>, calls: seq<Call>,
                             tokens: nat, finishes: seq<Finish>, error: Option<string>)

  const NOTHING := Meaning("", "", [], [], 0, [], None)

  function Position(order: seq<int>, index: int): (p: nat)
    ensures p <= |order| && (p < |order| ==> order[p] == index)
    ensures p == |order| ==> index !in order
  {
    if order == [] || order[0] == index then 0 else 1 + Position(order[1..], index)
  }

  function Hear(m: Meaning, text: Option<string>): Meaning {
    if text.Some? then m.(text := m.text + text.value) else m
  }

  function Ponder(m: Meaning, text: Option<string>): Meaning {
    if text.Some? then m.(reasoning := m.reasoning + text.value) else m
  }

  function Record(m: Meaning, call: CallDelta): Meaning {
    var p := Position(m.order, call.index);
    if p < |m.order| && p < |m.calls| then
      m.(calls := m.calls[p := m.calls[p].(arguments := m.calls[p].arguments + call.arguments)])
    else
      m.(order := m.order + [call.index], calls := m.calls + [Call(call.id, call.name, call.arguments)])
  }

  function RecordAll(m: Meaning, calls: seq<CallDelta>): Meaning {
    if calls == [] then m else Record(RecordAll(m, calls[..|calls| - 1]), calls[|calls| - 1])
  }

  function End(m: Meaning, tokens: Option<nat>, finish: string): Meaning {
    var counted := m.(tokens := if tokens.Some? then tokens.value else m.tokens);
    if finish == "" then counted else counted.(finishes := m.finishes + [Finish(finish, counted.tokens)])
  }

  function Absorb(m: Meaning, chunk: ChatChunk): Meaning {
    End(RecordAll(Hear(Ponder(m, chunk.reasoning), chunk.content), chunk.calls), chunk.tokens, chunk.finish)
  }

  /** The meaning of a stream read from `m` on: it ends at `[DONE]` or at an error. */
  function Understand(m: Meaning, frames: seq<ChatFrame>): Meaning
    decreases |frames|
  {
    if frames == [] then m
    else match frames[0]
      case Done => m
      case Failure(error) => m.(error := Some(error))
      case Chunk(chunk) => Understand(Absorb(m, chunk), frames[1..])
  }

  function MeaningOf(frames: seq<ChatFrame>): Meaning {
    Understand(NOTHING, frames)
  }

  // ---------- There and back keeps the meaning

  /** The reader and the meaning it has conveyed, event by event. */
  datatype Relay = Relay(reader: Reader, meaning: Meaning)

  function Pass(relay: Relay, event: MessageEvent): Relay {
    var shown := Relabel(relay.reader, event);
    Relay(shown.reader, match shown.frame case Some(Chunk(c)) => Absorb(relay.meaning, c) case _ => relay.meaning)
  }

  function PassAll(relay: Relay, events: seq<MessageEvent>): Relay
    decreases |events|
  {
    if events == [] then relay else PassAll(Pass(relay, events[0]), events[1..])
  }

  lemma {:induction false} PassAllAppend(relay: Relay, a: seq<MessageEvent>, b: seq<MessageEvent>)
    ensures PassAll(relay, a + b) == PassAll(PassAll(relay, a), b)
    decreases |a|
  {
    hide Pass;
    if a == [] {
      assert a + b == b;
    } else {
      assert (a + b)[1..] == a[1..] + b;
      PassAllAppend(Pass(relay, a[0]), a[1..], b);
    }
  }

  predicate NoError(events: seq<MessageEvent>) {
    forall i | 0 <= i < |events| :: !events[i].ErrorEvent?
  }

  lemma {:induction false} RestoreThenUnderstand(relay: Relay, events: seq<MessageEvent>, rest: seq<MessageEvent>)
    requires NoError(events)
    ensures var after := PassAll(relay, events);
            Understand(relay.meaning, Restore(relay.reader, events + rest))
            == Understand(after.meaning, Restore(after.reader, rest))
    decreases |events|
  {
    if events == [] {
      assert events + rest == rest;
    } else {
      hide Absorb;
      assert (events + rest)[1..] == events[1..] + rest;
      RestoreThenUnderstand(Pass(relay, events[0]), events[1..], rest);
      var shown := Relabel(relay.reader, events[0]);
      var later := Restore(shown.reader, events[1..] + rest);
      if shown.frame.Some? {
        assert ([shown.frame.value] + later)[1..] == later;
      } else {
        assert [] + later == later;
      }
    }
  }

  function Canonical(finishes: seq<Finish>): seq<Finish> {
    if finishes == [] then []
    else
      var last := finishes[|finishes| - 1];
      Canonical(finishes[..|finishes| - 1]) + [Finish(FinishReason(StopReason(last.reason)), last.tokens)]
  }

  /** The calls are the same, renumbered 0, 1, 2, ... in order of first appearance. */
  ghost predicate Renumbered(source: Meaning, target: Meaning) {
    && target.calls == source.calls && |target.order| == |source.order| == |source.calls|
    && forall p | 0 <= p < |target.order| :: target.order[p] == p
  }

  /** The token count that the last finish reported. */
  function LastCount(finishes: seq<Finish>): nat {
    if finishes == [] then 0 else finishes[|finishes| - 1].tokens
  }

  ghost predicate SameMeaning(source: Meaning, target: Meaning) {
    && target.text == source.text && target.reasoning == source.reasoning
    && target.tokens == LastCount(source.finishes)
    && Renumbered(source, target)
    && target.finishes == Canonical(source.finishes)
    && target.error == source.error
  }

  /** Every call index has one tool block, which the reader knows by its position. */
  ghost predicate Numbered(w: Writer, r: Reader, source: Meaning) {
    && |r.tools| == |source.order| == |source.calls|
    && (forall p, q | 0 <= p < q < |source.order| :: source.order[p] != source.order[q])
    && (forall i :: i in w.tools <==> i in source.order)
    && (forall p | 0 <= p < |source.order| ::
          && source.order[p] in w.tools && w.tools[source.order[p]] < w.next
          && w.tools[source.order[p]] in r.tools && r.tools[w.tools[source.order[p]]] == p)
    && (forall b | b in r.tools :: b < w.next)
  }

  ghost predicate Follows(w: Writer, source: Meaning, relay: Relay) {
    && Numbered(w, relay.reader, source)
    && SameMeaning(source, relay.meaning)
    && w.tokens == source.tokens
  }

  lemma {:induction false} PositionIsUnique(order: seq<int>, p: nat)
    requires p < |order| && forall q | 0 <= q < p :: order[q] != order[p]
    ensures Position(order, order[p]) == p
  {
    if p > 0 {
      PositionIsUnique(order[1..], p - 1);
    }
  }

  // Event by event, what passes.

  lemma PassOne(relay: Relay, event: MessageEvent)
    ensures PassAll(relay, [event]) == Pass(relay, event)
  {
    assert [event][1..] == [];
  }

  lemma PassTwo(relay: Relay, a: MessageEvent, b: MessageEvent)
    ensures PassAll(relay, [a, b]) == Pass(Pass(relay, a), b)
  {
    assert [a, b][1..] == [b];
    PassOne(Pass(relay, a), b);
  }

  lemma PassDelta(relay: Relay, index: int, text: string)
    ensures Pass(relay, BlockDelta(index, TextDelta(text))) == relay.(meaning := Hear(relay.meaning, Some(text)))
    ensures Pass(relay, BlockDelta(index, ThinkingDelta(text))) == relay.(meaning := Ponder(relay.meaning, Some(text)))
  {
  }

  lemma PassCall(relay: Relay, index: int, call: CallDelta)
    ensures Pass(relay, BlockStart(index, ToolUse(call.id, call.name)))
         == Relay(relay.reader.(tools := relay.reader.tools[index := |relay.reader.tools|]),
                  Record(relay.meaning, CallDelta(|relay.reader.tools|, call.id, call.name, "")))
    ensures index in relay.reader.tools ==>
              Pass(relay, BlockDelta(index, JsonDelta(call.arguments)))
              == relay.(meaning := Record(relay.meaning, CallDelta(relay.reader.tools[index], None, None, call.arguments)))
  {
    RecordOne(relay.meaning, CallDelta(|relay.reader.tools|, call.id, call.name, ""));
    if index in relay.reader.tools {
      RecordOne(relay.meaning, CallDelta(relay.reader.tools[index], None, None, call.arguments));
    }
  }

  lemma RecordOne(m: Meaning, call: CallDelta)
    ensures RecordAll(m, [call]) == Record(m, call)
  {
    assert [call][..0] == [];
  }

  lemma FollowsBegin(w: Writer, source: Meaning, relay: Relay, id: Option<string>)
    requires Follows(w, source, relay)
    ensures Follows(Begin(w, id).writer, source, PassAll(relay, Begin(w, id).events))
  {
    if !w.started {
      PassOne(relay, Begin(w, id).events[0]);
    }
  }

  lemma FollowsThink(w: Writer, source: Meaning, relay: Relay, text: Option<string>)
    requires Follows(w, source, relay)
    ensures Follows(Think(w, text).writer, Ponder(source, text), PassAll(relay, Think(w, text).events))
  {
    if text.Some? {
      if w.reasoning.Some? {
        PassOne(relay, Think(w, text).events[0]);
        PassDelta(relay, w.reasoning.value, text.value);
      } else {
        PassTwo(relay, BlockStart(w.next, Thinking), BlockDelta(w.next, ThinkingDelta(text.value)));
        PassDelta(relay, w.next, text.value);
      }
    }
  }

  lemma FollowsSay(w: Writer, source: Meaning, relay: Relay, text: Option<string>)
    requires Follows(w, source, relay)
    ensures Follows(Say(w, text).writer, Hear(source, text), PassAll(relay, Say(w, text).events))
  {
    if text.Some? {
      if w.text.Some? {
        PassOne(relay, Say(w, text).events[0]);
        PassDelta(relay, w.text.value, text.value);
      } else {
        PassTwo(relay, BlockStart(w.next, Text), BlockDelta(w.next, TextDelta(text.value)));
        PassDelta(relay, w.next, text.value);
      }
    }
  }

  /** A call seen before: its arguments reach the same call again. */
  lemma FollowsKnownCall(w: Writer, source: Meaning, relay: Relay, call: CallDelta)
    requires Follows(w, source, relay) && call.index in w.tools
    ensures Follows(Invoke(w, call).writer, Record(source, call), PassAll(relay, Invoke(w, call).events))
  {
    var p := Position(source.order, call.index);
    assert source.order[p] == call.index;
    PositionIsUnique(relay.meaning.order, p);
    if call.arguments == "" {
      var was := source.calls[p];
      assert was.arguments + "" == was.arguments;
      assert source.calls[p := was] == source.calls;
    } else {
      var index := w.tools[call.index];
      assert [] + Invoke(w, call).events == Invoke(w, call).events;
      PassOne(relay, BlockDelta(index, JsonDelta(call.arguments)));
      PassCall(relay, index, call);
    }
  }

  /** The first appearance of a call opens the next block and gets the next number. */
  lemma FollowsNewCall(w: Writer, source: Meaning, relay: Relay, call: CallDelta)
    requires Follows(w, source, relay) && call.index !in w.tools
    ensures var entry := Written(w.(tools := w.tools[call.index := w.next], next := w.next + 1),
                                 [BlockStart(w.next, ToolUse(call.id, call.name))]);
            Follows(entry.writer, Record(source, call.(arguments := "")), PassAll(relay, entry.events))
  {
    var n := |source.order|;
    PassOne(relay, BlockStart(w.next, ToolUse(call.id, call.name)));
    PassCall(relay, w.next, call);
    assert Position(source.order, call.index) == n;
    assert Position(relay.meaning.order, n) == n;
  }

  lemma FollowsCall(w: Writer, source: Meaning, relay: Relay, call: CallDelta)
    requires Follows(w, source, relay)
    ensures Follows(Invoke(w, call).writer, Record(source, call), PassAll(relay, Invoke(w, call).events))
  {
    hide Follows, Pass;
    if call.index in w.tools {
      FollowsKnownCall(w, source, relay, call);
    } else {
      var start := BlockStart(w.next, ToolUse(call.id, call.name));
      var extended := w.(tools := w.tools[call.index := w.next], next := w.next + 1);
      FollowsNewCall(w, source, relay, call);
      if call.arguments == "" {
        assert call.(arguments := "") == call;
      } else {
        var next := PassAll(relay, [start]);
        var begun := Record(source, call.(arguments := ""));
        FollowsKnownCall(extended, begun, next, call);
        RecordTwice(source, call, w, relay);
        PassAllAppend(relay, [start], [BlockDelta(w.next, JsonDelta(call.arguments))]);
        assert Invoke(extended, call).events == [BlockDelta(w.next, JsonDelta(call.arguments))];
      }
    }
  }

  lemma RecordTwice(source: Meaning, call: CallDelta, w: Writer, relay: Relay)
    requires Follows(w, source, relay) && call.index !in w.tools
    ensures Record(Record(source, call.(arguments := "")), call) == Record(source, call)
  {
    var begun := Record(source, call.(arguments := ""));
    var n := |source.order|;
    PositionIsUnique(begun.order, n);
    assert "" + call.arguments == call.arguments;
    assert begun.calls[n := Call(call.id, call.name, call.arguments)] == source.calls + [Call(call.id, call.name, call.arguments)];
  }

  lemma {:induction false} FollowsCalls(w: Writer, source: Meaning, relay: Relay, calls: seq<CallDelta>)
    requires Follows(w, source, relay)
    ensures Follows(InvokeAll(w, calls).writer, RecordAll(source, calls), PassAll(relay, InvokeAll(w, calls).events))
    decreases |calls|
  {
    hide Follows, Pass, Invoke, Record;
    if calls == [] {
    } else {
      var front, last := InvokeAll(w, calls[..|calls| - 1]), calls[|calls| - 1];
      FollowsCalls(w, source, relay, calls[..|calls| - 1]);
      FollowsCall(front.writer, RecordAll(source, calls[..|calls| - 1]), PassAll(relay, front.events), last);
      PassAllAppend(relay, front.events, Invoke(front.writer, last).events);
    }
  }

  lemma {:induction false} PassStops(relay: Relay, from: nat, end: nat)
    requires from <= end
    ensures PassAll(relay, Stops(from, end)) == relay
    decreases end - from
  {
    if from < end {
      PassStops(relay, from + 1, end);
      assert Stops(from, end)[1..] == Stops(from + 1, end);
    }
  }

  lemma FollowsEnd(w: Writer, source: Meaning, relay: Relay, tokens: Option<nat>, finish: string)
    requires Follows(w, source, relay)
    ensures Follows(Conclude(w, tokens, finish).writer, End(source, tokens, finish),
                    PassAll(relay, Conclude(w, tokens, finish).events))
  {
    if finish != "" {
      var delta := MessageDelta(StopReason(finish), Some(Conclude(w, tokens, finish).writer.tokens));
      PassStops(relay, 0, w.next);
      PassAllAppend(relay, Stops(0, w.next), [delta]);
      PassOne(relay, delta);
      var finishes := End(source, tokens, finish).finishes;
      assert finishes[..|finishes| - 1] == source.finishes;
    }
  }

  /** One chunk written, read back and absorbed is the chunk absorbed. */
  lemma FollowsChunk(w: Writer, source: Meaning, relay: Relay, chunk: ChatChunk)
    requires Follows(w, source, relay)
    ensures Follows(Write(w, chunk).writer, Absorb(source, chunk), PassAll(relay, Write(w, chunk).events))
  {
    hide Follows, Pass, Begin, Think, Say, InvokeAll, Conclude, PassAll;
    var a := Begin(w, chunk.id);
    var b := Then(a, Think(a.writer, chunk.reasoning));
    var c := Then(b, Say(b.writer, chunk.content));
    var d := Then(c, InvokeAll(c.writer, chunk.calls));
    FollowsBegin(w, source, relay, chunk.id);
    FollowsThink(a.writer, source, PassAll(relay, a.events), chunk.reasoning);
    PassAllAppend(relay, a.events, Think(a.writer, chunk.reasoning).events);
    var pondered := Ponder(source, chunk.reasoning);
    FollowsSay(b.writer, pondered, PassAll(relay, b.events), chunk.content);
    PassAllAppend(relay, b.events, Say(b.writer, chunk.content).events);
    var heard := Hear(pondered, chunk.content);
    FollowsCalls(c.writer, heard, PassAll(relay, c.events), chunk.calls);
    PassAllAppend(relay, c.events, InvokeAll(c.writer, chunk.calls).events);
    FollowsEnd(d.writer, RecordAll(heard, chunk.calls), PassAll(relay, d.events), chunk.tokens, chunk.finish);
    PassAllAppend(relay, d.events, Conclude(d.writer, chunk.tokens, chunk.finish).events);
  }

  lemma {:induction false} CallsWriteNoError(w: Writer, calls: seq<CallDelta>)
    ensures NoError(InvokeAll(w, calls).events)
    decreases |calls|
  {
    if calls == [] {
    } else {
      CallsWriteNoError(w, calls[..|calls| - 1]);
    }
  }

  lemma {:induction false} StopsAreStops(from: nat, end: nat)
    requires from <= end
    ensures NoError(Stops(from, end))
    decreases end - from
  {
    if from < end {
      StopsAreStops(from + 1, end);
    }
  }

  lemma ChunkWritesNoError(w: Writer, chunk: ChatChunk)
    ensures NoError(Write(w, chunk).events)
  {
    hide Stops, InvokeAll;
    var a := Begin(w, chunk.id);
    var b := Then(a, Think(a.writer, chunk.reasoning));
    var c := Then(b, Say(b.writer, chunk.content));
    CallsWriteNoError(c.writer, chunk.calls);
    var d := Then(c, InvokeAll(c.writer, chunk.calls));
    StopsAreStops(0, d.writer.next);
    assert NoError(d.events);
  }

  lemma {:induction false} TranslationFollows(w: Writer, source: Meaning, relay: Relay, frames: seq<ChatFrame>)
    requires Follows(w, source, relay)
    ensures SameMeaning(Understand(source, frames), Understand(relay.meaning, Restore(relay.reader, Translate(w, frames))))
    decreases |frames|
  {
    var events := Translate(w, frames);
    if frames == [] || frames[0].Done? {
      RestoreThenUnderstand(relay, events, []);
      assert events + [] == events;
      if w.started {
        PassOne(relay, MessageStop);
      } else {
        PassTwo(relay, MessageStart(Some(w.id)), MessageStop);
      }
    } else if frames[0].Failure? {
      assert events[1..] == [];
      assert Restore(relay.reader, events)[0] == Failure(frames[0].error);
    } else {
      hide Follows, Write, Absorb, SameMeaning;
      var chunk := frames[0].chunk;
      var written := Write(w, chunk);
      FollowsChunk(w, source, relay, chunk);
      ChunkWritesNoError(w, chunk);
      RestoreThenUnderstand(relay, written.events, Translate(written.writer, frames[1..]));
      TranslationFollows(written.writer, Absorb(source, chunk), PassAll(relay, written.events), frames[1..]);
    }
  }

  /** Any chat stream, translated to message events and back, keeps its meaning. */
  lemma RoundTripKeepsMeaning(frames: seq<ChatFrame>)
    ensures SameMeaning(MeaningOf(frames), MeaningOf(ToChat(ToAnthropic(frames))))
  {
    TranslationFollows(FRESH, NOTHING, Relay(Reader("chatcmpl_z_prov", map[]), NOTHING), frames);
  }

  /** The final token count comes back exactly when it is the one the last finish reported. */
  lemma TokensSurviveIff(frames: seq<ChatFrame>)
    ensures MeaningOf(ToChat(ToAnthropic(frames))).tokens == MeaningOf(frames).tokens
       <==> MeaningOf(frames).tokens == LastCount(MeaningOf(frames).finishes)
  {
    RoundTripKeepsMeaning(frames);
  }

  /** Usage in a chunk of its own after the finish is lost. */
  lemma TrailingUsageIsLost(finish: string, before: nat, later: nat)
    requires finish != "" && before != later
    ensures var frames := [Chunk(BLANK.(tokens := Some(before), finish := finish)), Chunk(BLANK.(tokens := Some(later))), Done];
            MeaningOf(frames).tokens == later && MeaningOf(ToChat(ToAnthropic(frames))).tokens == before
  {
    var first, second := BLANK.(tokens := Some(before), finish := finish), BLANK.(tokens := Some(later));
    var frames := [Chunk(first), Chunk(second), Done];
    AbsorbPlain(NOTHING, first);
    AbsorbPlain(Absorb(NOTHING, first), second);
    assert frames[1..] == [Chunk(second), Done] && frames[1..][1..] == [Done];
    assert Understand(Absorb(Absorb(NOTHING, first), second), frames[1..][1..]) == Absorb(Absorb(NOTHING, first), second);
    assert Understand(Absorb(NOTHING, first), frames[1..]) == Absorb(Absorb(NOTHING, first), second);
    RoundTripKeepsMeaning(frames);
  }

  lemma AbsorbPlain(m: Meaning, chunk: ChatChunk)
    requires chunk.reasoning.None? && chunk.content.None? && chunk.calls == []
    ensures Absorb(m, chunk) == End(m, chunk.tokens, chunk.finish)
  {
  }

  const SHARED_FINISHES := {"stop", "length", "tool_calls", "content_filter"}

  lemma FinishReasonSurvives(reason: string)
    ensures FinishReason(StopReason(reason)) == reason <==> reason in SHARED_FINISHES
  {
  }

  /** Finish reasons come back unchanged exactly when all are among the four shared ones. */
  lemma {:induction false} FinishReasonsSurvive(finishes: seq<Finish>)
    ensures |Canonical(finishes)| == |finishes|
    ensures Canonical(finishes) == finishes <==> forall i | 0 <= i < |finishes| :: finishes[i].reason in SHARED_FINISHES
  {
    hide SHARED_FINISHES, FinishReason, StopReason;
    if finishes == [] {
    } else {
      var front, last := finishes[..|finishes| - 1], finishes[|finishes| - 1];
      var shown := Finish(FinishReason(StopReason(last.reason)), last.tokens);
      FinishReasonsSurvive(front);
      FinishReasonSurvives(last.reason);
      assert finishes == front + [last] && Canonical(finishes) == Canonical(front) + [shown];
      SnocEqual(Canonical(front), shown, front, last);
    }
  }

  lemma SnocEqual<T>(a: seq<T>, x: T, b: seq<T>, y: T)
    requires |a| == |b|
    ensures a + [x] == b + [y] <==> a == b && x == y
  {
    if a + [x] == b + [y] {
      assert a == (a + [x])[..|a|] && b == (b + [y])[..|b|];
      assert (a + [x])[|a|] == x;
    }
  }

  // ---------- The event protocol

  /** Where a client of the event stream stands. `live` holds the blocks not yet closed. */
  datatype Phase =
    | Waiting
    | Body(kinds: seq<BlockKind>, live: set<int>)
    | Reported
    | Ended
    | Broken

  predicate Fits(delta: Delta, kind: BlockKind) {
    match delta
    case ThinkingDelta(_) => kind.Thinking?
    case TextDelta(_) => kind.Text?
    case JsonDelta(_) => kind.ToolUse?
  }

  /** One message_start; blocks opened as 0, 1, 2, ...; deltas only to an open block of
      the right kind; every block closed once; then one message_delta and one message_stop. */
  function Advance(phase: Phase, event: MessageEvent): Phase {
    match (phase, event)
    case (Waiting, MessageStart(_)) => Body([], {})
    case (Body(kinds, live), BlockStart(index, kind)) =>
      if index == |kinds| then Body(kinds + [kind], live + {index}) else Broken
    case (Body(kinds, live), BlockDelta(index, delta)) =>
      if index in live && 0 <= index < |kinds| && Fits(delta, kinds[index]) then phase else Broken
    case (Body(kinds, live), BlockStop(index)) =>
      if index in live then Body(kinds, live - {index}) else Broken
    case (Body(_, live), MessageDelta(_, _)) => if live == {} then Reported else Broken
    case (Reported, MessageStop) => Ended
    case _ => Broken
  }

  function AdvanceAll(phase: Phase, events: seq<MessageEvent>): Phase
    decreases |events|
  {
    if events == [] then phase else AdvanceAll(Advance(phase, events[0]), events[1..])
  }

  predicate ObeysProtocol(events: seq<MessageEvent>) {
    AdvanceAll(Waiting, events).Ended?
  }

  function Indexes(calls: seq<CallDelta>): set<int> {
    set i | 0 <= i < |calls| :: calls[i].index
  }

  /** A chunk that adds nothing: no text, no reasoning, no finish, no new call and no arguments. */
  predicate Quiet(chunk: ChatChunk, known: set<int>) {
    && chunk.reasoning.None? && chunk.content.None? && chunk.finish == ""
    && forall i | 0 <= i < |chunk.calls| :: chunk.calls[i].index in known && chunk.calls[i].arguments == ""
  }

  /** No error, and nothing but quiet chunks, until `[DONE]`. */
  predicate StaysQuiet(frames: seq<ChatFrame>, known: set<int>) {
    if frames == [] || frames[0].Done? then true
    else frames[0].Chunk? && Quiet(frames[0].chunk, known) && StaysQuiet(frames[1..], known)
  }

  /** No error, one finishing chunk, and quiet chunks after it; `known` are the calls seen. */
  predicate FinishesOnce(frames: seq<ChatFrame>, known: set<int>) {
    if frames == [] || frames[0].Done? || frames[0].Failure? then false
    else
      var chunk := frames[0].chunk;
      var now := known + Indexes(chunk.calls);
      if chunk.finish == "" then FinishesOnce(frames[1..], now) else StaysQuiet(frames[1..], now)
  }

  lemma {:induction false} AdvanceAppend(phase: Phase, a: seq<MessageEvent>, b: seq<MessageEvent>)
    ensures AdvanceAll(phase, a + b) == AdvanceAll(AdvanceAll(phase, a), b)
    decreases |a|
  {
    hide Advance;
    if a == [] {
      assert a + b == b;
    } else {
      assert (a + b)[1..] == a[1..] + b;
      AdvanceAppend(Advance(phase, a[0]), a[1..], b);
    }
  }

  lemma {:induction false} BrokenStays(phase: Phase, events: seq<MessageEvent>)
    requires phase.Broken? || (phase.Ended? && events != [])
    ensures AdvanceAll(phase, events).Broken?
    decreases |events|
  {
    if events == [] {
    } else {
      BrokenStays(Broken, events[1..]);
    }
  }

  lemma AdvanceOne(phase: Phase, event: MessageEvent)
    ensures AdvanceAll(phase, [event]) == Advance(phase, event)
  {
    assert [event][1..] == [];
  }

  lemma AdvanceTwo(phase: Phase, a: MessageEvent, b: MessageEvent)
    ensures AdvanceAll(phase, [a, b]) == Advance(Advance(phase, a), b)
  {
    assert [a, b][1..] == [b];
    AdvanceOne(Advance(phase, a), b);
  }

  function Upto(from: int, end: int): (r: set<int>)
    ensures forall i :: i in r <==> from <= i < end
    decreases end - from
  {
    if from >= end then {} else {from} + Upto(from + 1, end)
  }

  /** Every block the translator has numbered is live, and of the kind it will write. */
  ghost predicate InBody(w: Writer, phase: Phase) {
    && w.started && phase.Body? && |phase.kinds| == w.next && phase.live == Upto(0, w.next)
    && (w.reasoning.Some? ==> 0 <= w.reasoning.value < w.next && phase.kinds[w.reasoning.value].Thinking?)
    && (w.text.Some? ==> 0 <= w.text.value < w.next && phase.kinds[w.text.value].Text?)
    && (forall i | i in w.tools :: 0 <= w.tools[i] < w.next && phase.kinds[w.tools[i]].ToolUse?)
  }

  lemma ThinkInBody(w: Writer, phase: Phase, text: Option<string>)
    requires InBody(w, phase)
    ensures InBody(Think(w, text).writer, AdvanceAll(phase, Think(w, text).events))
  {
    if text.Some? {
      if w.reasoning.Some? {
        AdvanceOne(phase, Think(w, text).events[0]);
      } else {
        AdvanceTwo(phase, BlockStart(w.next, Thinking), BlockDelta(w.next, ThinkingDelta(text.value)));
        assert Upto(0, w.next + 1) == Upto(0, w.next) + {w.next};
      }
    }
  }

  lemma SayInBody(w: Writer, phase: Phase, text: Option<string>)
    requires InBody(w, phase)
    ensures InBody(Say(w, text).writer, AdvanceAll(phase, Say(w, text).events))
  {
    if text.Some? {
      if w.text.Some? {
        AdvanceOne(phase, Say(w, text).events[0]);
      } else {
        AdvanceTwo(phase, BlockStart(w.next, Text), BlockDelta(w.next, TextDelta(text.value)));
        assert Upto(0, w.next + 1) == Upto(0, w.next) + {w.next};
      }
    }
  }

  lemma OpenToolInBody(w: Writer, phase: Phase, call: CallDelta)
    requires InBody(w, phase)
    ensures var extended := w.(tools := w.tools[call.index := w.next], next := w.next + 1);
            InBody(extended, AdvanceAll(phase, [BlockStart(w.next, ToolUse(call.id, call.name))]))
  {
    assert Upto(0, w.next + 1) == Upto(0, w.next) + {w.next};
    AdvanceOne(phase, BlockStart(w.next, ToolUse(call.id, call.name)));
  }

  lemma ArgumentsInBody(w: Writer, phase: Phase, call: CallDelta)
    requires InBody(w, phase) && call.index in w.tools
    ensures AdvanceAll(phase, [BlockDelta(w.tools[call.index], JsonDelta(call.arguments))]) == phase
  {
    AdvanceOne(phase, BlockDelta(w.tools[call.index], JsonDelta(call.arguments)));
  }

  lemma InvokeInBody(w: Writer, phase: Phase, call: CallDelta)
    requires InBody(w, phase)
    ensures InBody(Invoke(w, call).writer, AdvanceAll(phase, Invoke(w, call).events))
    ensures Invoke(w, call).writer.tools.Keys == w.tools.Keys + {call.index}
  {
    hide InBody, Advance;
    var entry, after := Written(w, []), phase;
    if call.index !in w.tools {
      entry := Written(w.(tools := w.tools[call.index := w.next], next := w.next + 1),
                       [BlockStart(w.next, ToolUse(call.id, call.name))]);
      OpenToolInBody(w, phase, call);
      after := AdvanceAll(phase, entry.events);
    }
    if call.arguments != "" {
      ArgumentsInBody(entry.writer, after, call);
      AdvanceAppend(phase, entry.events, [BlockDelta(entry.writer.tools[call.index], JsonDelta(call.arguments))]);
    }
  }

  lemma {:induction false} InvokeAllInBody(w: Writer, phase: Phase, calls: seq<CallDelta>)
    requires InBody(w, phase)
    ensures InBody(InvokeAll(w, calls).writer, AdvanceAll(phase, InvokeAll(w, calls).events))
    ensures InvokeAll(w, calls).writer.tools.Keys == w.tools.Keys + Indexes(calls)
    decreases |calls|
  {
    hide InBody, Invoke;
    if calls == [] {
    } else {
      var before, last := calls[..|calls| - 1], calls[|calls| - 1];
      var front := InvokeAll(w, before);
      InvokeAllInBody(w, phase, before);
      InvokeInBody(front.writer, AdvanceAll(phase, front.events), last);
      AdvanceAppend(phase, front.events, Invoke(front.writer, last).events);
      IndexesSnoc(before, last);
      assert before + [last] == calls;
    }
  }

  lemma IndexesSnoc(calls: seq<CallDelta>, last: CallDelta)
    ensures Indexes(calls + [last]) == Indexes(calls) + {last.index}
  {
    var all := calls + [last];
    forall x ensures x in Indexes(all) <==> x in Indexes(calls) + {last.index} {
      if x in Indexes(calls) {
        var i :| 0 <= i < |calls| && calls[i].index == x;
        assert all[i].index == x;
      }
      if x == last.index {
        assert all[|calls|].index == x;
      }
    }
  }

  lemma {:induction false} StopsClose(kinds: seq<BlockKind>, from: nat, end: nat)
    requires from <= end
    ensures AdvanceAll(Body(kinds, Upto(from, end)), Stops(from, end)) == Body(kinds, {})
    decreases end - from
  {
    if from < end {
      assert Upto(from, end) - {from} == Upto(from + 1, end);
      assert Stops(from, end)[1..] == Stops(from + 1, end);
      StopsClose(kinds, from + 1, end);
    } else {
      assert Upto(from, end) == {};
    }
  }

  lemma ConcludeInBody(w: Writer, phase: Phase, tokens: Option<nat>, finish: string)
    requires InBody(w, phase)
    ensures var done := Conclude(w, tokens, finish);
            var after := AdvanceAll(phase, done.events);
            if finish == "" then InBody(done.writer, after) else after.Reported? && done.writer.started
  {
    if finish != "" {
      var delta := MessageDelta(StopReason(finish), Some(Conclude(w, tokens, finish).writer.tokens));
      StopsClose(phase.kinds, 0, w.next);
      AdvanceAppend(phase, Stops(0, w.next), [delta]);
      AdvanceOne(Body(phase.kinds, {}), delta);
    }
  }

  /** In the body, or before anything was written. */
  ghost predicate Ready(w: Writer, phase: Phase) {
    || InBody(w, phase)
    || (phase.Waiting? && !w.started && w.reasoning.None? && w.text.None? && w.tools == map[] && w.next == 0)
  }

  lemma BeginInBody(w: Writer, phase: Phase, id: Option<string>)
    requires Ready(w, phase)
    ensures InBody(Begin(w, id).writer, AdvanceAll(phase, Begin(w, id).events))
    ensures Begin(w, id).writer.tools == w.tools
  {
    if !w.started {
      AdvanceOne(phase, Begin(w, id).events[0]);
      assert Upto(0, 0) == {};
    }
  }

  /** A chunk keeps the stream in the body, or its finish reports exactly once. */
  lemma WriteInBody(w: Writer, phase: Phase, chunk: ChatChunk)
    requires Ready(w, phase)
    ensures var written := Write(w, chunk);
            var after := AdvanceAll(phase, written.events);
            && written.writer.started && written.writer.tools.Keys == w.tools.Keys + Indexes(chunk.calls)
            && if chunk.finish == "" then InBody(written.writer, after) else after.Reported?
  {
    var a := Begin(w, chunk.id);
    var b := Then(a, Think(a.writer, chunk.reasoning));
    var c := Then(b, Say(b.writer, chunk.content));
    var d := Then(c, InvokeAll(c.writer, chunk.calls));
    var e := Then(d, Conclude(d.writer, chunk.tokens, chunk.finish));
    BeginInBody(w, phase, chunk.id);
    assert c.writer.tools == a.writer.tools && e.writer.tools == d.writer.tools && e.writer.started == d.writer.started;
    hide InBody, Ready, Begin, Think, Say, InvokeAll, Conclude, AdvanceAll;
    ThinkInBody(a.writer, AdvanceAll(phase, a.events), chunk.reasoning);
    AdvanceAppend(phase, a.events, Think(a.writer, chunk.reasoning).events);
    SayInBody(b.writer, AdvanceAll(phase, b.events), chunk.content);
    AdvanceAppend(phase, b.events, Say(b.writer, chunk.content).events);
    InvokeAllInBody(c.writer, AdvanceAll(phase, c.events), chunk.calls);
    AdvanceAppend(phase, c.events, InvokeAll(c.writer, chunk.calls).events);
    StartedInBody(d.writer, AdvanceAll(phase, d.events));
    ConcludeInBody(d.writer, AdvanceAll(phase, d.events), chunk.tokens, chunk.finish);
    AdvanceAppend(phase, d.events, Conclude(d.writer, chunk.tokens, chunk.finish).events);
  }

  lemma StartedInBody(w: Writer, phase: Phase)
    requires InBody(w, phase)
    ensures w.started
  {
  }

  predicate NoStop(events: seq<MessageEvent>) {
    forall i | 0 <= i < |events| :: !events[i].MessageStop?
  }

  lemma {:induction false} InvokeAllQuietly(w: Writer, calls: seq<CallDelta>)
    ensures var written := InvokeAll(w, calls);
            && NoStop(written.events)
            && written.writer.started == w.started
            && (written.events == []
                <==> forall i | 0 <= i < |calls| :: calls[i].index in w.tools && calls[i].arguments == "")
            && (written.events == [] ==> written.writer == w)
    decreases |calls|
  {
    if calls == [] {
    } else {
      InvokeAllQuietly(w, calls[..|calls| - 1]);
    }
  }

  lemma {:induction false} StopsAreNoMessageStop(from: nat, end: nat)
    requires from <= end
    ensures NoStop(Stops(from, end))
    decreases end - from
  {
    if from < end {
      StopsAreNoMessageStop(from + 1, end);
    }
  }

  /** Exactly the quiet chunks write nothing once the message has started. */
  lemma QuietWritesNothing(w: Writer, chunk: ChatChunk)
    requires w.started
    ensures var written := Write(w, chunk);
            && NoStop(written.events)
            && written.writer.started
            && (written.events == [] <==> Quiet(chunk, w.tools.Keys))
            && (written.events == [] ==> written.writer.tools == w.tools)
  {
    hide InvokeAll, Stops;
    var a := Begin(w, chunk.id);
    var b := Then(a, Think(a.writer, chunk.reasoning));
    var c := Then(b, Say(b.writer, chunk.content));
    InvokeAllQuietly(c.writer, chunk.calls);
    var d := Then(c, InvokeAll(c.writer, chunk.calls));
    StopsAreNoMessageStop(0, d.writer.next);
    assert NoStop(d.events);
  }

  lemma {:induction false} ReportedThenQuiet(w: Writer, frames: seq<ChatFrame>)
    requires w.started
    ensures AdvanceAll(Reported, Translate(w, frames)).Ended? <==> StaysQuiet(frames, w.tools.Keys)
    decreases |frames|
  {
    var events := Translate(w, frames);
    if frames == [] || frames[0].Done? {
      assert events == [MessageStop];
      AdvanceOne(Reported, MessageStop);
    } else if frames[0].Failure? {
      AdvanceOne(Reported, events[0]);
    } else {
      var written := Write(w, frames[0].chunk);
      var later := Translate(written.writer, frames[1..]);
      QuietWritesNothing(w, frames[0].chunk);
      hide Write, Quiet;
      if written.events == [] {
        assert [] + later == later;
        ReportedThenQuiet(written.writer, frames[1..]);
      } else {
        assert events[0] == written.events[0];
        BrokenStays(Advance(Reported, events[0]), events[1..]);
      }
    }
  }

  lemma {:induction false} ProtocolFrom(w: Writer, phase: Phase, frames: seq<ChatFrame>)
    requires Ready(w, phase)
    ensures AdvanceAll(phase, Translate(w, frames)).Ended? <==> FinishesOnce(frames, w.tools.Keys)
    decreases |frames|
  {
    var events := Translate(w, frames);
    if frames == [] || frames[0].Done? {
      if w.started {
        assert events == [MessageStop];
        AdvanceOne(phase, MessageStop);
      } else {
        AdvanceTwo(phase, MessageStart(Some(w.id)), MessageStop);
      }
    } else if frames[0].Failure? {
      AdvanceOne(phase, events[0]);
    } else {
      var chunk := frames[0].chunk;
      var written := Write(w, chunk);
      WriteInBody(w, phase, chunk);
      hide Write, InBody, AdvanceAll;
      AdvanceAppend(phase, written.events, Translate(written.writer, frames[1..]));
      if chunk.finish == "" {
        ProtocolFrom(written.writer, AdvanceAll(phase, written.events), frames[1..]);
      } else {
        ReportedThenQuiet(written.writer, frames[1..]);
      }
    }
  }

  /** The emitted events obey the protocol exactly when the chat stream finishes once,
      without an error, and adds nothing afterwards. */
  lemma ProtocolIffFinishesOnce(frames: seq<ChatFrame>)
    ensures ObeysProtocol(ToAnthropic(frames)) <==> FinishesOnce(frames, {})
  {
    ProtocolFrom(FRESH, Waiting, frames);
    assert FRESH.tools.Keys == {};
  }

  // ---------- The translators themselves

  method ChatToAnthropic(frames: seq<ChatFrame>) returns (events: seq<MessageEvent>)
    ensures events == ToAnthropic(frames)
  {
    var w := FRESH;
    events := [];
    var i := 0;
    assert frames[0..] == frames && [] + Translate(w, frames) == Translate(w, frames);
    while i < |frames| && !frames[i].Done?
      invariant 0 <= i <= |frames|
      invariant events + Translate(w, frames[i..]) == ToAnthropic(frames)
    {
      assert frames[i..][1..] == frames[i + 1..];
      ghost var sofar := events;
      if frames[i].Failure? {
        events := events + [ErrorEvent(frames[i].error)];
        return;
      }
      var emitted;
      w, emitted := WriteChunk(w, frames[i].chunk);
      events := events + emitted;
      Assoc(sofar, emitted, Translate(w, frames[i + 1..]));
      i := i + 1;
    }
    events := events + (if w.started then [] else [MessageStart(Some(w.id))]) + [MessageStop];
  }

  method WriteChunk(writer: Writer, chunk: ChatChunk) returns (w: Writer, events: seq<MessageEvent>)
    ensures Written(w, events) == Write(writer, chunk)
  {
    w, events := WriteText(writer, chunk);
    w, events := WriteCalls(w, events, chunk.calls);
    w, events := WriteEnd(w, events, chunk.tokens, chunk.finish);
  }

  method WriteText(writer: Writer, chunk: ChatChunk) returns (w: Writer, events: seq<MessageEvent>)
    ensures var a := Begin(writer, chunk.id);
            var b := Then(a, Think(a.writer, chunk.reasoning));
            Written(w, events) == Then(b, Say(b.writer, chunk.content))
  {
    hide Think, Say;
    w, events := writer, [];
    if chunk.id.Some? {
      w := w.(id := chunk.id.value);
    }
    if !w.started {
      w := w.(started := true);
      events := events + [MessageStart(Some(w.id))];
    }
    var emitted;
    w, emitted := WriteReasoning(w, chunk.reasoning);
    events := events + emitted;
    w, emitted := WriteContent(w, chunk.content);
    events := events + emitted;
  }

  method WriteReasoning(writer: Writer, reasoning: Option<string>) returns (w: Writer, events: seq<MessageEvent>)
    ensures Written(w, events) == Think(writer, reasoning)
  {
    w, events := writer, [];
    if reasoning.Some? {
      if w.reasoning.None? {
        w := w.(reasoning := Some(w.next), next := w.next + 1);
        events := events + [BlockStart(w.reasoning.value, Thinking)];
      }
      events := events + [BlockDelta(w.reasoning.value, ThinkingDelta(reasoning.value))];
    }
  }

  method WriteContent(writer: Writer, content: Option<string>) returns (w: Writer, events: seq<MessageEvent>)
    ensures Written(w, events) == Say(writer, content)
  {
    w, events := writer, [];
    if content.Some? {
      if w.text.None? {
        w := w.(text := Some(w.next), next := w.next + 1);
        events := events + [BlockStart(w.text.value, Text)];
      }
      events := events + [BlockDelta(w.text.value, TextDelta(content.value))];
    }
  }

  method WriteCalls(writer: Writer, emitted: seq<MessageEvent>, calls: seq<CallDelta>)
    returns (w: Writer, events: seq<MessageEvent>)
    ensures w == InvokeAll(writer, calls).writer && events == emitted + InvokeAll(writer, calls).events
  {
    hide Invoke;
    w, events := writer, emitted;
    assert emitted + [] == emitted;
    for i := 0 to |calls|
      invariant w == InvokeAll(writer, calls[..i]).writer && events == emitted + InvokeAll(writer, calls[..i]).events
    {
      assert calls[..i + 1][..i] == calls[..i];
      var more;
      Assoc(emitted, InvokeAll(writer, calls[..i]).events, Invoke(w, calls[i]).events);
      w, more := WriteCall(w, calls[i]);
      events := events + more;
    }
    assert calls[..|calls|] == calls;
  }

  method WriteCall(writer: Writer, call: CallDelta) returns (w: Writer, events: seq<MessageEvent>)
    ensures Written(w, events) == Invoke(writer, call)
  {
    w, events := writer, [];
    if call.index !in w.tools {
      var block := w.next;
      w := w.(next := w.next + 1, tools := w.tools[call.index := block]);
      events := events + [BlockStart(block, ToolUse(call.id, call.name))];
    }
    if call.arguments != "" {
      events := events + [BlockDelta(w.tools[call.index], JsonDelta(call.arguments))];
    }
  }

  method WriteEnd(writer: Writer, emitted: seq<MessageEvent>, tokens: Option<nat>, finish: string)
    returns (w: Writer, events: seq<MessageEvent>)
    ensures w == Conclude(writer, tokens, finish).writer && events == emitted + Conclude(writer, tokens, finish).events
  {
    w, events := writer, emitted;
    if tokens.Some? {
      w := w.(tokens := tokens.value);
    }
    if finish != "" {
      for index := 0 to w.next
        invariant events + Stops(index, w.next) == emitted + Stops(0, w.next)
      {
        assert Stops(index, w.next) == [BlockStop(index)] + Stops(index + 1, w.next);
        Assoc(events, [BlockStop(index)], Stops(index + 1, w.next));
        events := events + [BlockStop(index)];
      }
      assert events + [] == events;
      events := events + [MessageDelta(StopReason(finish), Some(w.tokens))];
    }
  }

  method AnthropicToChat(events: seq<MessageEvent>) returns (frames: seq<ChatFrame>)
    ensures frames == ToChat(events)
  {
    var id, tools: map<int, nat> := "chatcmpl_z_prov", map[];
    frames := [];
    for i := 0 to |events|
      invariant frames + Restore(Reader(id, tools), events[i..]) == ToChat(events)
    {
      assert events[i..][1..] == events[i + 1..];
      ghost var before, sofar := Reader(id, tools), frames;
      match events[i] {
        case MessageStart(start) =>
          id := if start.Some? then start.value else id;
          frames := frames + [Chunk(BLANK.(id := Some(id)))];
        case BlockStart(index, ToolUse(callId, name)) =>
          var position := |tools|;
          tools := tools[index := position];
          frames := frames + [Chunk(BLANK.(id := Some(id), calls := [CallDelta(position, callId, name, "")]))];
        case BlockDelta(_, TextDelta(text)) =>
          frames := frames + [Chunk(BLANK.(id := Some(id), content := Some(text)))];
        case BlockDelta(_, ThinkingDelta(text)) =>
          frames := frames + [Chunk(BLANK.(id := Some(id), reasoning := Some(text)))];
        case BlockDelta(index, JsonDelta(json)) =>
          var position := if index in tools then tools[index] else index;
          frames := frames + [Chunk(BLANK.(id := Some(id), calls := [CallDelta(position, None, None, json)]))];
        case MessageDelta(stop, tokens) =>
          frames := frames + [Chunk(BLANK.(id := Some(id), tokens := tokens, finish := FinishReason(stop)))];
        case ErrorEvent(error) =>
          frames := frames + [Failure(error)];
        case _ =>
      }
      ghost var shown := Relabel(before, events[i]);
      ghost var one := if shown.frame.Some? then [shown.frame.value] else [];
      assert shown.reader == Reader(id, tools);
      assert frames == sofar + one;
      Assoc(sofar, one, Restore(Reader(id, tools), events[i + 1..]));
    }
    assert events[|events|..] == [];
    frames := frames + [Done];
  }
}
