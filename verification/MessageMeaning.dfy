/**
 What a stream of message events tells, for any events, and what the translators make of it.
 */
module MessageMeaning {
  import opened Wrappers
  import opened StreamTranslation

  /** The events before the first error. */
  function UntilError(events: seq<MessageEvent>): seq<MessageEvent> {
    if events == [] || events[0].ErrorEvent? then [] else [events[0]] + UntilError(events[1..])
  }

  function ErrorIn(events: seq<MessageEvent>): Option<string> {
    var n := |UntilError(events)|;
    if n < |events| && events[n].ErrorEvent? then Some(events[n].error) else None
  }

  function Front(events: seq<MessageEvent>): seq<MessageEvent>
    requires events != []
  {
    events[..|events| - 1]
  }

  /** The texts of all text deltas, of whatever block. */
  function TextIn(events: seq<MessageEvent>): string {
    if events == [] then ""
    else match events[|events| - 1]
      case BlockDelta(_, TextDelta(text)) => TextIn(Front(events)) + text
      case _ => TextIn(Front(events))
  }

  function ReasoningIn(events: seq<MessageEvent>): string {
    if events == [] then ""
    else match events[|events| - 1]
      case BlockDelta(_, ThinkingDelta(text)) => ReasoningIn(Front(events)) + text
      case _ => ReasoningIn(Front(events))
  }

  /** The last token count any message_delta gave. */
  function CountIn(events: seq<MessageEvent>): nat {
    if events == [] then 0
    else match events[|events| - 1]
      case MessageDelta(_, Some(tokens)) => tokens
      case _ => CountIn(Front(events))
  }

  /** Each message_delta's stop reason, with the token count as of then. */
  function EndsIn(events: seq<MessageEvent>): seq<(string, nat)> {
    if events == [] then []
    else match events[|events| - 1]
      case MessageDelta(stop, _) => EndsIn(Front(events)) + [(stop, CountIn(events))]
      case _ => EndsIn(Front(events))
  }

  /** The finish reason a stop reason stands for: three have a name of their own, and every other one is a plain stop. */
  ghost predicate StandsFor(stop: string, finish: string) {
    && (finish == "tool_calls" <==> stop == "tool_use")
    && (finish == "length" <==> stop == "max_tokens")
    && (finish == "content_filter" <==> stop == "refusal")
    && (finish == "stop" <==> stop !in {"tool_use", "max_tokens", "refusal"})
  }

  ghost predicate EndsAs(finishes: seq<Finish>, ends: seq<(string, nat)>) {
    |finishes| == |ends| && forall k | 0 <= k < |ends| :: StandsFor(ends[k].0, finishes[k].reason) && finishes[k].tokens == ends[k].1
  }

  lemma ReasonsStand(stop: string)
    ensures StandsFor(stop, FinishReason(stop))
  {
  }

  // ---------- Any message stream, read as chat

  const START := Relay(Reader("chatcmpl_z_prov", map[]), NOTHING)

  /** Tool blocks and their calls: block `index` is the call that its last start opened. */
  lemma PassedTells(relay: Relay, event: MessageEvent)
    ensures var after := Pass(relay, event);
            && after.meaning.text == (match event case BlockDelta(_, TextDelta(t)) => relay.meaning.text + t case _ => relay.meaning.text)
            && after.meaning.reasoning
               == (match event case BlockDelta(_, ThinkingDelta(t)) => relay.meaning.reasoning + t case _ => relay.meaning.reasoning)
            && after.meaning.tokens == (match event case MessageDelta(_, Some(n)) => n case _ => relay.meaning.tokens)
            && after.meaning.finishes
               == (match event
                   case MessageDelta(stop, _) => relay.meaning.finishes + [Finish(FinishReason(stop), after.meaning.tokens)]
                   case _ => relay.meaning.finishes)
            && after.meaning.error == relay.meaning.error
  {
    hide FinishReason;
    var shown := Relabel(relay.reader, event);
    match shown.frame {
      case Some(Chunk(chunk)) =>
        if |chunk.calls| == 1 {
          RecordOne(Hear(Ponder(relay.meaning, chunk.reasoning), chunk.content), chunk.calls[0]);
        }
      case _ =>
    }
  }

  lemma {:induction false} ReadTells(events: seq<MessageEvent>)
    ensures var m := PassAll(START, events).meaning;
            && m.text == TextIn(events) && m.reasoning == ReasoningIn(events) && m.tokens == CountIn(events)
            && EndsAs(m.finishes, EndsIn(events)) && m.error == None
  {
    if events == [] {
    } else {
      var front, last := Front(events), events[|events| - 1];
      assert events == front + [last];
      ReadTells(front);
      PassAllAppend(START, front, [last]);
      PassOne(PassAll(START, front), last);
      PassedTells(PassAll(START, front), last);
      hide PassAll, Pass, FinishReason, StandsFor;
      if last.MessageDelta? {
        ReasonsStand(last.stop);
      }
    }
  }

  lemma {:induction false} UntilErrorSplits(events: seq<MessageEvent>)
    ensures var n := |UntilError(events)|;
            n <= |events| && UntilError(events) == events[..n] && NoError(events[..n]) && (n < |events| ==> events[n].ErrorEvent?)
  {
    if events == [] || events[0].ErrorEvent? {
    } else {
      UntilErrorSplits(events[1..]);
      var n := |UntilError(events[1..])|;
      assert events[..n + 1] == [events[0]] + events[1..][..n];
    }
  }

  /** What is read is what was passed on before the first error, and that error. */
  lemma ReadIsPassed(events: seq<MessageEvent>)
    ensures MeaningOf(ToChat(events)) == PassAll(START, UntilError(events)).meaning.(error := ErrorIn(events))
  {
    UntilErrorSplits(events);
    var h, n := UntilError(events), |UntilError(events)|;
    assert events == h + events[n..];
    RestoreThenUnderstand(START, h, events[n..]);
    ReadTells(h);
    var after := PassAll(START, h);
    hide PassAll;
    if n < |events| {
      assert events[n..][0] == events[n];
      assert Restore(after.reader, events[n..])[0] == Failure(events[n].error);
    }
  }

  /**
   Any message events, read as a chat stream: the text, the reasoning, the finish reasons with their token counts, and
   the token count are those of the events before the first error, which is reported.
   */
  lemma AnyEventsRead(events: seq<MessageEvent>)
    ensures var m, told := MeaningOf(ToChat(events)), UntilError(events);
            && m.text == TextIn(told) && m.reasoning == ReasoningIn(told) && m.tokens == CountIn(told)
            && EndsAs(m.finishes, EndsIn(told)) && m.error == ErrorIn(events)
  {
    ReadIsPassed(events);
    ReadTells(UntilError(events));
  }

  // ---------- Tool calls of any orderly message stream

  datatype Tool = Tool(block: int, id: Option<string>, name: Option<string>)

  /** The tool blocks in the order they start. */
  function ToolsIn(events: seq<MessageEvent>): seq<Tool> {
    if events == [] then []
    else match events[|events| - 1]
      case BlockStart(index, ToolUse(id, name)) => ToolsIn(Front(events)) + [Tool(index, id, name)]
      case _ => ToolsIn(Front(events))
  }

  /** The JSON text sent to one block. */
  function ArgumentsTo(events: seq<MessageEvent>, block: int): string {
    if events == [] then ""
    else match events[|events| - 1]
      case BlockDelta(index, JsonDelta(json)) => ArgumentsTo(Front(events), block) + (if index == block then json else "")
      case _ => ArgumentsTo(Front(events), block)
  }

  ghost predicate HasTool(tools: seq<Tool>, block: int) {
    exists p | 0 <= p < |tools| :: tools[p].block == block
  }

  /** Every tool block starts once, and before any JSON text is sent to it. */
  ghost predicate Orderly(events: seq<MessageEvent>) {
    events != [] ==>
      && Orderly(Front(events))
      && match events[|events| - 1]
         case BlockStart(index, ToolUse(_, _)) => !HasTool(ToolsIn(Front(events)), index)
         case BlockDelta(index, JsonDelta(_)) => HasTool(ToolsIn(Front(events)), index)
         case _ => true
  }

  /** Call `p` is tool block `p` with all the JSON text sent to it. */
  ghost predicate CallsAre(m: Meaning, events: seq<MessageEvent>) {
    var tools := ToolsIn(events);
    && |m.calls| == |m.order| == |tools|
    && forall p | 0 <= p < |tools| ::
         m.order[p] == p && m.calls[p] == Call(tools[p].id, tools[p].name, ArgumentsTo(events, tools[p].block))
  }

  ghost predicate NumbersAre(r: Reader, tools: seq<Tool>) {
    && |r.tools| == |tools|
    && (forall b :: b in r.tools <==> HasTool(tools, b))
    && forall p | 0 <= p < |tools| :: tools[p].block in r.tools && r.tools[tools[p].block] == p
  }

  lemma ToolsStay(events: seq<MessageEvent>, block: int)
    ensures events != [] && HasTool(ToolsIn(Front(events)), block) ==> HasTool(ToolsIn(events), block)
  {
    if events != [] && HasTool(ToolsIn(Front(events)), block) {
      var p :| 0 <= p < |ToolsIn(Front(events))| && ToolsIn(Front(events))[p].block == block;
      assert ToolsIn(events)[p].block == block;
    }
  }

  lemma {:induction false} NothingSentYet(events: seq<MessageEvent>, block: int)
    ensures Orderly(events) && !HasTool(ToolsIn(events), block) ==> ArgumentsTo(events, block) == ""
  {
    if events == [] {
    } else if Orderly(events) && !HasTool(ToolsIn(events), block) {
      var front, last := Front(events), events[|events| - 1];
      ToolsStay(events, block);
      NothingSentYet(front, block);
    }
  }

  lemma {:induction false} NumbersInOrder(order: seq<int>, p: nat)
    requires p < |order| && forall q | 0 <= q < |order| :: order[q] == q
    ensures Position(order, order[p]) == p
  {
    PositionIsUnique(order, p);
  }

  lemma StartCollects(events: seq<MessageEvent>, index: int, id: Option<string>, name: Option<string>)
    ensures var more, tools := events + [BlockStart(index, ToolUse(id, name))], ToolsIn(events);
            && ToolsIn(more) == tools + [Tool(index, id, name)]
            && (forall b :: ArgumentsTo(more, b) == ArgumentsTo(events, b))
            && forall b :: HasTool(ToolsIn(more), b) <==> HasTool(tools, b) || b == index
  {
    var more, tools := events + [BlockStart(index, ToolUse(id, name))], ToolsIn(events);
    assert Front(more) == events;
    var all := tools + [Tool(index, id, name)];
    hide ArgumentsTo;
    forall b ensures HasTool(all, b) <==> HasTool(tools, b) || b == index {
      if HasTool(tools, b) {
        var p :| 0 <= p < |tools| && tools[p].block == b;
        assert all[p].block == b;
      }
      assert all[|tools|].block == index;
    }
  }

  lemma StartTold(relay: Relay, events: seq<MessageEvent>, index: int, id: Option<string>, name: Option<string>)
    requires Orderly(events) && !HasTool(ToolsIn(events), index)
    requires NumbersAre(relay.reader, ToolsIn(events)) && CallsAre(relay.meaning, events)
    ensures var after, more := Pass(relay, BlockStart(index, ToolUse(id, name))), events + [BlockStart(index, ToolUse(id, name))];
            NumbersAre(after.reader, ToolsIn(more)) && CallsAre(after.meaning, more)
  {
    NothingSentYet(events, index);
    hide Pass, Orderly, ToolsIn, ArgumentsTo, HasTool;
    StartCollects(events, index, id, name);
    PassCall(relay, index, CallDelta(0, id, name, ""));
    var n := |ToolsIn(events)|;
    assert Position(relay.meaning.order, n) == n;
  }

  lemma SentCollects(events: seq<MessageEvent>, index: int, json: string)
    ensures var more := events + [BlockDelta(index, JsonDelta(json))];
            && ToolsIn(more) == ToolsIn(events)
            && ArgumentsTo(more, index) == ArgumentsTo(events, index) + json
            && forall b | b != index :: ArgumentsTo(more, b) == ArgumentsTo(events, b)
  {
    assert Front(events + [BlockDelta(index, JsonDelta(json))]) == events;
    assert forall b :: ArgumentsTo(events, b) + "" == ArgumentsTo(events, b);
  }

  lemma SentTold(relay: Relay, events: seq<MessageEvent>, index: int, json: string)
    requires Orderly(events) && HasTool(ToolsIn(events), index)
    requires NumbersAre(relay.reader, ToolsIn(events)) && CallsAre(relay.meaning, events)
    ensures var after, more := Pass(relay, BlockDelta(index, JsonDelta(json))), events + [BlockDelta(index, JsonDelta(json))];
            NumbersAre(after.reader, ToolsIn(more)) && CallsAre(after.meaning, more)
  {
    var tools := ToolsIn(events);
    var k :| 0 <= k < |tools| && tools[k].block == index;
    hide Pass, Orderly, ToolsIn, ArgumentsTo, HasTool;
    SentCollects(events, index, json);
    PassCall(relay, index, CallDelta(0, None, None, json));
    NumbersInOrder(relay.meaning.order, k);
    assert relay.reader.tools[index] == k;
    assert forall p | 0 <= p < |tools| :: p != k ==> tools[p].block != index;
  }

  predicate OfTools(event: MessageEvent) {
    (event.BlockStart? && event.kind.ToolUse?) || (event.BlockDelta? && event.delta.JsonDelta?)
  }

  lemma OthersPass(relay: Relay, event: MessageEvent)
    ensures !OfTools(event) ==>
              var after := Pass(relay, event);
              after.reader.tools == relay.reader.tools && after.meaning.calls == relay.meaning.calls && after.meaning.order == relay.meaning.order
  {
    hide FinishReason;
  }

  lemma OthersCollect(events: seq<MessageEvent>, event: MessageEvent)
    ensures !OfTools(event) ==>
              ToolsIn(events + [event]) == ToolsIn(events) && forall b :: ArgumentsTo(events + [event], b) == ArgumentsTo(events, b)
  {
    assert Front(events + [event]) == events;
  }

  lemma OthersTell(relay: Relay, events: seq<MessageEvent>, event: MessageEvent)
    requires NumbersAre(relay.reader, ToolsIn(events)) && CallsAre(relay.meaning, events) && !OfTools(event)
    ensures var after, more := Pass(relay, event), events + [event];
            NumbersAre(after.reader, ToolsIn(more)) && CallsAre(after.meaning, more)
  {
    hide Pass, ToolsIn, ArgumentsTo, OfTools;
    OthersPass(relay, event);
    OthersCollect(events, event);
  }

  lemma {:induction false} CallsPassed(events: seq<MessageEvent>)
    ensures Orderly(events) ==>
              var after := PassAll(START, events);
              NumbersAre(after.reader, ToolsIn(events)) && CallsAre(after.meaning, events)
  {
    if events == [] {
    } else if Orderly(events) {
      var front, last := Front(events), events[|events| - 1];
      assert events == front + [last];
      CallsPassed(front);
      PassAllAppend(START, front, [last]);
      PassOne(PassAll(START, front), last);
      hide PassAll, Pass, NumbersAre, CallsAre, ToolsIn;
      match last {
        case BlockStart(index, ToolUse(id, name)) => StartTold(PassAll(START, front), front, index, id, name);
        case BlockDelta(index, JsonDelta(json)) => SentTold(PassAll(START, front), front, index, json);
        case _ => OthersTell(PassAll(START, front), front, last);
      }
    }
  }

  /** The calls a chat client hears of an orderly message stream: its tool blocks in order of their starts, numbered from 0,
      each with its id, its name and all the JSON text sent to it. */
  lemma OrderlyCallsRead(events: seq<MessageEvent>)
    ensures Orderly(UntilError(events)) ==> CallsAre(MeaningOf(ToChat(events)), UntilError(events))
  {
    ReadIsPassed(events);
    CallsPassed(UntilError(events));
    hide ToolsIn, ArgumentsTo;
  }

  // ---------- What the writer makes of a chat stream

  /** The stop reasons of the message_deltas. */
  function StopsIn(events: seq<MessageEvent>): seq<string> {
    if events == [] then []
    else (if events[0].MessageDelta? then [events[0].stop] else []) + StopsIn(events[1..])
  }

  /** The finish reasons of a chat stream up to its end or an error. */
  function FinishesIn(frames: seq<ChatFrame>): seq<string> {
    if frames == [] || !frames[0].Chunk? then []
    else (if frames[0].chunk.finish != "" then [frames[0].chunk.finish] else []) + FinishesIn(frames[1..])
  }

  /** The stop reason that stands for a finish reason: three have one of their own, every other ends the turn. */
  ghost predicate WrittenAs(finish: string, stop: string) {
    && (stop == "tool_use" <==> finish == "tool_calls")
    && (stop == "max_tokens" <==> finish == "length")
    && (stop == "refusal" <==> finish == "content_filter")
    && (stop == "end_turn" <==> finish !in {"tool_calls", "length", "content_filter"})
  }

  lemma StopsAreWritten(finish: string)
    ensures WrittenAs(finish, StopReason(finish))
  {
  }

  lemma {:induction false} StopsAppend(a: seq<MessageEvent>, b: seq<MessageEvent>)
    ensures StopsIn(a + b) == StopsIn(a) + StopsIn(b)
  {
    if a == [] {
      assert a + b == b;
    } else {
      assert (a + b)[1..] == a[1..] + b;
      StopsAppend(a[1..], b);
    }
  }

  lemma StopsInOne(event: MessageEvent)
    ensures StopsIn([event]) == if event.MessageDelta? then [event.stop] else []
  {
    assert [event][1..] == [];
  }

  lemma {:induction false} NoDeltaNoStop(events: seq<MessageEvent>)
    ensures (forall i | 0 <= i < |events| :: !events[i].MessageDelta?) ==> StopsIn(events) == []
  {
    if events == [] {
    } else {
      NoDeltaNoStop(events[1..]);
    }
  }

  lemma PiecesHaveNoStops(w: Writer, chunk: ChatChunk, call: CallDelta)
    ensures StopsIn(Begin(w, chunk.id).events) == [] && StopsIn(Think(w, chunk.reasoning).events) == []
    ensures StopsIn(Say(w, chunk.content).events) == [] && StopsIn(Invoke(w, call).events) == []
  {
    hide StopsIn;
    NoDeltaNoStop(Begin(w, chunk.id).events);
    NoDeltaNoStop(Think(w, chunk.reasoning).events);
    NoDeltaNoStop(Say(w, chunk.content).events);
    NoDeltaNoStop(Invoke(w, call).events);
  }

  lemma {:induction false} CallsHaveNoStops(w: Writer, calls: seq<CallDelta>)
    ensures StopsIn(InvokeAll(w, calls).events) == []
    decreases |calls|
  {
    if calls == [] {
    } else {
      var front := InvokeAll(w, calls[..|calls| - 1]);
      CallsHaveNoStops(w, calls[..|calls| - 1]);
      PiecesHaveNoStops(front.writer, BLANK, calls[|calls| - 1]);
      StopsAppend(front.events, Invoke(front.writer, calls[|calls| - 1]).events);
    }
  }

  lemma {:induction false} BlockStopsHaveNone(from: nat, end: nat)
    ensures from <= end ==> StopsIn(Stops(from, end)) == []
    decreases end - from
  {
    if from >= end {
    } else {
      BlockStopsHaveNone(from + 1, end);
    }
  }

  lemma ConcludeStops(w: Writer, tokens: Option<nat>, finish: string)
    ensures StopsIn(Conclude(w, tokens, finish).events) == if finish == "" then [] else [StopReason(finish)]
  {
    hide StopReason;
    if finish != "" {
      var counted := if tokens.Some? then tokens.value else w.tokens;
      BlockStopsHaveNone(0, w.next);
      StopsAppend(Stops(0, w.next), [MessageDelta(StopReason(finish), Some(counted))]);
      StopsInOne(MessageDelta(StopReason(finish), Some(counted)));
    }
  }

  lemma WriteStops(w: Writer, chunk: ChatChunk)
    ensures StopsIn(Write(w, chunk).events) == if chunk.finish == "" then [] else [StopReason(chunk.finish)]
  {
    hide StopsIn, Begin, Think, Say, Invoke, InvokeAll, Conclude, StopReason;
    var a := Begin(w, chunk.id);
    var b := Then(a, Think(a.writer, chunk.reasoning));
    var c := Then(b, Say(b.writer, chunk.content));
    var d := Then(c, InvokeAll(c.writer, chunk.calls));
    PiecesHaveNoStops(w, chunk, CallDelta(0, None, None, ""));
    PiecesHaveNoStops(a.writer, chunk, CallDelta(0, None, None, ""));
    PiecesHaveNoStops(b.writer, chunk, CallDelta(0, None, None, ""));
    CallsHaveNoStops(c.writer, chunk.calls);
    ConcludeStops(d.writer, chunk.tokens, chunk.finish);
    StopsAppend(a.events, Think(a.writer, chunk.reasoning).events);
    StopsAppend(b.events, Say(b.writer, chunk.content).events);
    StopsAppend(c.events, InvokeAll(c.writer, chunk.calls).events);
    StopsAppend(d.events, Conclude(d.writer, chunk.tokens, chunk.finish).events);
  }

  ghost predicate AllWritten(finishes: seq<string>, stops: seq<string>) {
    |stops| == |finishes| && forall k | 0 <= k < |finishes| :: WrittenAs(finishes[k], stops[k])
  }

  lemma WrittenMore(finishes: seq<string>, stops: seq<string>, finish: string)
    ensures AllWritten(finishes, stops) ==> AllWritten([finish] + finishes, [StopReason(finish)] + stops)
  {
    hide WrittenAs, StopReason;
    StopsAreWritten(finish);
  }

  lemma {:induction false} TranslatedStops(w: Writer, frames: seq<ChatFrame>)
    ensures AllWritten(FinishesIn(frames), StopsIn(Translate(w, frames)))
    decreases |frames|
  {
    hide Write, StopReason;
    if frames == [] || frames[0].Done? {
      StopsAppend(if w.started then [] else [MessageStart(Some(w.id))], [MessageStop]);
      StopsInOne(MessageStop);
      StopsInOne(MessageStart(Some(w.id)));
    } else if frames[0].Failure? {
      StopsInOne(ErrorEvent(frames[0].error));
    } else {
      var chunk := frames[0].chunk;
      var written := Write(w, chunk);
      TranslatedStops(written.writer, frames[1..]);
      WriteStops(w, chunk);
      StopsAppend(written.events, Translate(written.writer, frames[1..]));
      hide StopsIn, FinishesIn, AllWritten;
      ChunkFinishes(frames);
      var stops, finishes := StopsIn(Translate(written.writer, frames[1..])), FinishesIn(frames[1..]);
      WrittenMore(finishes, stops, chunk.finish);
      assert [] + stops == stops && [] + finishes == finishes;
    }
  }

  lemma ChunkFinishes(frames: seq<ChatFrame>)
    ensures frames != [] && frames[0].Chunk? ==>
              FinishesIn(frames) == (if frames[0].chunk.finish != "" then [frames[0].chunk.finish] else []) + FinishesIn(frames[1..])
  {
  }

  /** The message events of any chat stream carry its text, its reasoning and its error, and one stop reason for each of its
      finish reasons. */
  lemma WrittenEventsTell(frames: seq<ChatFrame>)
    ensures var events, m := ToAnthropic(frames), MeaningOf(frames);
            && TextIn(UntilError(events)) == m.text && ReasoningIn(UntilError(events)) == m.reasoning && ErrorIn(events) == m.error
            && AllWritten(FinishesIn(frames), StopsIn(events))
  {
    RoundTripKeepsMeaning(frames);
    AnyEventsRead(ToAnthropic(frames));
    TranslatedStops(FRESH, frames);
    hide MeaningOf, Translate;
  }

  // ---------- Message ids

  /** A message opens with the id of the first chunk, or a fixed one when that has none or there is none. */
  lemma MessageIdIsTheFirst(frames: seq<ChatFrame>)
    ensures frames == [] || !frames[0].Failure? ==>
              var events := ToAnthropic(frames);
              events != [] && events[0] == MessageStart(Some(
                if frames != [] && frames[0].Chunk? && frames[0].chunk.id.Some? then frames[0].chunk.id.value else "msg_z_prov"))
  {
    if frames != [] && frames[0].Chunk? {
      hide Think, Say, InvokeAll, Conclude;
      assert Write(FRESH, frames[0].chunk).events[0] == Begin(FRESH, frames[0].chunk.id).events[0];
    }
  }

  /** The id of a chat chunk; errors and the end marker have none. */
  ghost predicate Carries(frames: seq<ChatFrame>, id: string) {
    forall k | 0 <= k < |frames| :: frames[k].Chunk? ==> frames[k].chunk.id == Some(id)
  }

  lemma {:induction false} RestCarries(r: Reader, events: seq<MessageEvent>)
    ensures (forall i | 0 <= i < |events| :: !events[i].MessageStart?) ==> Carries(Restore(r, events), r.id)
    decreases |events|
  {
    if events == [] {
    } else {
      RestCarries(Relabel(r, events[0]).reader, events[1..]);
    }
  }

  /** Every chat chunk of a message stream carries the id its message_start gave, or a fixed one without it. */
  lemma ChunksCarryTheMessageId(events: seq<MessageEvent>)
    ensures (forall i | 0 < i < |events| :: !events[i].MessageStart?) ==>
              Carries(ToChat(events), if events != [] && events[0].MessageStart? && events[0].id.Some? then events[0].id.value
                                      else "chatcmpl_z_prov")
  {
    if events != [] && forall i | 0 < i < |events| :: !events[i].MessageStart? {
      var r := Reader("chatcmpl_z_prov", map[]);
      RestCarries(Relabel(r, events[0]).reader, events[1..]);
    }
  }

  // ---------- The shape of what is written

  /** The place of an event in what one chunk writes: the start, reasoning, text, tools, block stops, the report. */
  function Rank(event: MessageEvent): nat {
    match event
    case MessageStart(_) => 0
    case BlockStart(_, Thinking) => 1
    case BlockDelta(_, ThinkingDelta(_)) => 1
    case BlockStart(_, Text) => 2
    case BlockDelta(_, TextDelta(_)) => 2
    case BlockStart(_, ToolUse(_, _)) => 3
    case BlockDelta(_, JsonDelta(_)) => 3
    case BlockStop(_) => 4
    case _ => 5
  }

  ghost predicate Ranked(events: seq<MessageEvent>, low: nat, high: nat) {
    && (forall i | 0 <= i < |events| :: low <= Rank(events[i]) <= high)
    && forall i, j | 0 <= i < j < |events| :: Rank(events[i]) <= Rank(events[j])
  }

  lemma RankedJoin(a: seq<MessageEvent>, b: seq<MessageEvent>, low: nat, middle: nat, next: nat, high: nat)
    ensures Ranked(a, low, middle) && Ranked(b, next, high) && low <= middle <= next <= high ==> Ranked(a + b, low, high)
  {
  }

  lemma PiecesAreRanked(w: Writer, chunk: ChatChunk, call: CallDelta)
    ensures Ranked(Begin(w, chunk.id).events, 0, 0) && Ranked(Think(w, chunk.reasoning).events, 1, 1)
    ensures Ranked(Say(w, chunk.content).events, 2, 2) && Ranked(Invoke(w, call).events, 3, 3)
  {
  }

  lemma {:induction false} CallsAreRanked(w: Writer, calls: seq<CallDelta>)
    ensures Ranked(InvokeAll(w, calls).events, 3, 3)
    decreases |calls|
  {
    hide Ranked;
    if calls == [] {
      NothingIsRanked(3, 3);
    } else {
      var front := InvokeAll(w, calls[..|calls| - 1]);
      CallsAreRanked(w, calls[..|calls| - 1]);
      PiecesAreRanked(front.writer, BLANK, calls[|calls| - 1]);
      RankedJoin(front.events, Invoke(front.writer, calls[|calls| - 1]).events, 3, 3, 3, 3);
    }
  }

  lemma NothingIsRanked(low: nat, high: nat)
    ensures Ranked([], low, high)
  {
  }

  lemma {:induction false} StopsAreRanked(from: nat, end: nat)
    ensures from <= end ==> Ranked(Stops(from, end), 4, 4)
    decreases end - from
  {
    if from >= end {
    } else {
      StopsAreRanked(from + 1, end);
    }
  }

  lemma ConcludeIsRanked(w: Writer, tokens: Option<nat>, finish: string)
    ensures Ranked(Conclude(w, tokens, finish).events, 4, 5)
  {
    StopsAreRanked(0, w.next);
    hide StopReason;
  }

  /** What one chunk writes comes in one order: the start, reasoning, text, tool calls, block stops, and the report. */
  lemma ChunkIsWrittenInOrder(w: Writer, chunk: ChatChunk)
    ensures Ranked(Write(w, chunk).events, 0, 5)
  {
    var a := Begin(w, chunk.id);
    var b := Then(a, Think(a.writer, chunk.reasoning));
    var c := Then(b, Say(b.writer, chunk.content));
    var d := Then(c, InvokeAll(c.writer, chunk.calls));
    PiecesAreRanked(w, chunk, CallDelta(0, None, None, ""));
    PiecesAreRanked(a.writer, chunk, CallDelta(0, None, None, ""));
    PiecesAreRanked(b.writer, chunk, CallDelta(0, None, None, ""));
    CallsAreRanked(c.writer, chunk.calls);
    ConcludeIsRanked(d.writer, chunk.tokens, chunk.finish);
    hide Ranked, Begin, Think, Say, Invoke, InvokeAll, Conclude;
    RankedJoin(a.events, Think(a.writer, chunk.reasoning).events, 0, 0, 1, 1);
    RankedJoin(b.events, Say(b.writer, chunk.content).events, 0, 1, 2, 2);
    RankedJoin(c.events, InvokeAll(c.writer, chunk.calls).events, 0, 2, 3, 3);
    RankedJoin(d.events, Conclude(d.writer, chunk.tokens, chunk.finish).events, 0, 3, 4, 5);
  }

  /** The events a chat client hears of: the start of a message or of a tool block, any delta, and an error. */
  predicate Speaks(event: MessageEvent) {
    match event
    case MessageStart(_) => true
    case BlockStart(_, kind) => kind.ToolUse?
    case BlockDelta(_, _) => true
    case MessageDelta(_, _) => true
    case ErrorEvent(_) => true
    case BlockStop(_) => false
    case MessageStop => false
    case Unknown => false
  }

  function Spoken(events: seq<MessageEvent>): nat {
    if events == [] then 0 else (if Speaks(events[0]) then 1 else 0) + Spoken(events[1..])
  }

  lemma {:induction false} RestoredOneEach(r: Reader, events: seq<MessageEvent>)
    ensures var frames := Restore(r, events);
            |frames| == Spoken(events) + 1 && frames[|frames| - 1] == Done && forall k | 0 <= k < |frames| - 1 :: !frames[k].Done?
    decreases |events|
  {
    hide FinishReason;
    if events == [] {
    } else {
      RestoredOneEach(Relabel(r, events[0]).reader, events[1..]);
    }
  }

  /** One frame for each such event, and the end marker once, at the end. */
  lemma OneFrameForEach(events: seq<MessageEvent>)
    ensures var frames := ToChat(events);
            |frames| == Spoken(events) + 1 && frames[|frames| - 1] == Done && forall k | 0 <= k < |frames| - 1 :: !frames[k].Done?
  {
    RestoredOneEach(Reader("chatcmpl_z_prov", map[]), events);
  }

  // ---------- Tool events of any stream, one by one

  /** The blocks that have started as tools. */
  function Started(events: seq<MessageEvent>): set<int> {
    if events == [] then {}
    else match events[|events| - 1]
      case BlockStart(index, ToolUse(_, _)) => Started(Front(events)) + {index}
      case _ => Started(Front(events))
  }

  /** The number a tool block got when it last started: how many blocks had started as tools by then. */
  function NumberOf(events: seq<MessageEvent>, block: int): nat {
    if events == [] then 0
    else match events[|events| - 1]
      case BlockStart(index, ToolUse(_, _)) => if index == block then |Started(Front(events))| else NumberOf(Front(events), block)
      case _ => NumberOf(Front(events), block)
  }

  /** The reader after some events, and the frames it has written. */
  function ReadSoFar(r: Reader, events: seq<MessageEvent>): (Reader, seq<ChatFrame>)
    decreases |events|
  {
    if events == [] then (r, [])
    else
      var sofar := ReadSoFar(r, Front(events));
      var shown := Relabel(sofar.0, events[|events| - 1]);
      (shown.reader, sofar.1 + (if shown.frame.Some? then [shown.frame.value] else []))
  }

  lemma {:induction false} RestoreContinues(r: Reader, a: seq<MessageEvent>, b: seq<MessageEvent>)
    ensures Restore(r, a + b) == ReadSoFar(r, a).1 + Restore(ReadSoFar(r, a).0, b)
    decreases |a|
  {
    hide Relabel;
    if a == [] {
      assert a + b == b && [] + Restore(r, b) == Restore(r, b);
    } else {
      var front, last := Front(a), a[|a| - 1];
      assert a + b == front + ([last] + b) && ([last] + b)[1..] == b;
      RestoreContinues(r, front, [last] + b);
      var sofar := ReadSoFar(r, front);
      var shown := Relabel(sofar.0, last);
      Assoc(sofar.1, if shown.frame.Some? then [shown.frame.value] else [], Restore(shown.reader, b));
    }
  }

  lemma ToolsRelabelled(r: Reader, event: MessageEvent)
    ensures Relabel(r, event).reader.tools
         == if event.BlockStart? && event.kind.ToolUse? then r.tools[event.index := |r.tools.Keys|] else r.tools
  {
    assert |r.tools| == |r.tools.Keys|;
    hide FinishReason;
  }

  lemma {:induction false} ReaderKnows(events: seq<MessageEvent>)
    ensures var r := ReadSoFar(START.reader, events).0;
            r.tools.Keys == Started(events) && forall b | b in r.tools :: r.tools[b] == NumberOf(events, b)
  {
    if events == [] {
    } else {
      ReaderKnows(Front(events));
      ToolsRelabelled(ReadSoFar(START.reader, Front(events)).0, events[|events| - 1]);
      hide Relabel;
    }
  }

  /** The call a tool event makes after what came before. */
  function CallsFor(before: seq<MessageEvent>, event: MessageEvent): seq<CallDelta> {
    match event
    case BlockStart(_, ToolUse(id, name)) => [CallDelta(|Started(before)|, id, name, "")]
    case BlockDelta(block, JsonDelta(json)) =>
      [CallDelta(if block in Started(before) then NumberOf(before, block) else block, None, None, json)]
    case _ => []
  }

  /**
   In any stream, whatever follows: the start of a tool block is a call with the next number, its id and its name; JSON
   text goes to the call of its block, or, for a block that has not started as a tool, to the call numbered as the block.
   */
  lemma ToolEventsRead(before: seq<MessageEvent>, event: MessageEvent, later: seq<MessageEvent>)
    ensures OfTools(event) ==>
              var n := Spoken(before);
              && n < |ToChat(before + [event] + later)| && ToChat(before + [event] + later)[n].Chunk?
              && ToChat(before + [event] + later)[n].chunk.calls == CallsFor(before, event)
  {
    if OfTools(event) {
      var r := ReadSoFar(START.reader, before).0;
      assert before + [event] + later == before + ([event] + later) && ([event] + later)[1..] == later;
      RestoreContinues(START.reader, before, [event] + later);
      ReaderKnows(before);
      assert |r.tools| == |r.tools.Keys|;
      FramesSoFar(before);
      hide ReadSoFar, Started, NumberOf, Spoken;
    }
  }

  lemma FramesSoFar(events: seq<MessageEvent>)
    ensures |ReadSoFar(START.reader, events).1| == Spoken(events)
  {
    RestoreContinues(START.reader, events, []);
    assert events + [] == events;
    RestoredOneEach(START.reader, events);
  }
}
