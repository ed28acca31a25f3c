/**
 The translators over event-stream text: read, translate, print, and back again.
 */
module StreamText {
  import opened Wrappers
  import opened Lines
  import opened Sse
  import opened StreamTranslation

  const END := "[DONE]"

  /** One line that starts with no space and is not the end marker, as JSON objects are. */
  ghost predicate Plain(text: string) {
    OneLine(TEXT_LINES, text) && (text == "" || !IsSpace(text[0])) && text != END
  }

  /** JSON text of chat chunks or errors, and of message events; reading is total, since bad JSON reads as {}. */
  datatype Codec = Codec(chatText: ChatFrame -> string, chatOf: string -> ChatFrame,
                         eventText: MessageEvent -> string, eventOf: string -> MessageEvent) {
    ghost predicate Valid() {
      && (forall f: ChatFrame :: !f.Done? ==> chatOf(chatText(f)) == f && Plain(chatText(f)))
      && forall e: MessageEvent :: eventOf(eventText(e)) == e && Plain(eventText(e))
    }
  }

  function EventName(e: MessageEvent): string {
    match e
    case MessageStart(_) => "message_start"
    case BlockStart(_, _) => "content_block_start"
    case BlockDelta(_, _) => "content_block_delta"
    case BlockStop(_) => "content_block_stop"
    case MessageDelta(_, _) => "message_delta"
    case MessageStop => "message_stop"
    case ErrorEvent(_) => "error"
    case Unknown => "ping"
  }

  function PrintEvents(codec: Codec, events: seq<MessageEvent>): seq<Printed> {
    if events == [] then []
    else [EventData(EventName(events[0]), codec.eventText(events[0]))] + PrintEvents(codec, events[1..])
  }

  function PrintChat(codec: Codec, frames: seq<ChatFrame>): seq<Printed> {
    if frames == [] then []
    else [Data(if frames[0].Done? then END else codec.chatText(frames[0]))] + PrintChat(codec, frames[1..])
  }

  function ReadMessages(codec: Codec, events: seq<Event>): seq<MessageEvent> {
    if events == [] then []
    else (if events[0].data == END then [] else [codec.eventOf(events[0].data)]) + ReadMessages(codec, events[1..])
  }

  function ReadChat(codec: Codec, events: seq<Event>): seq<ChatFrame> {
    if events == [] then []
    else [if events[0].data == END then Done else codec.chatOf(events[0].data)] + ReadChat(codec, events[1..])
  }

  /** `chat_to_anthropic_stream`: chunks of chat text to message text. */
  function MessageText(codec: Codec, chunks: seq<string>): string {
    PrintAll(PrintEvents(codec, ToAnthropic(ReadChat(codec, SseEvents(chunks)))))
  }

  /** `anthropic_to_chat_stream`: chunks of message text to chat text. */
  function ChatText(codec: Codec, chunks: seq<string>): string {
    PrintAll(PrintChat(codec, ToChat(ReadMessages(codec, SseEvents(chunks)))))
  }

  lemma NamesArePlain(e: MessageEvent)
    ensures IsName(EventName(e))
  {
  }

  lemma {:induction false} EventsPrintable(codec: Codec, events: seq<MessageEvent>)
    requires codec.Valid()
    ensures AllPrintable(PrintEvents(codec, events))
    ensures ReadMessages(codec, Meanings(PrintEvents(codec, events))) == events
  {
    hide EventName, IsName, IsSpace, OneLine;
    if events == [] {
    } else {
      var first, rest := events[0], PrintEvents(codec, events[1..]);
      var printed := EventData(EventName(first), codec.eventText(first));
      EventsPrintable(codec, events[1..]);
      NamesArePlain(first);
      assert codec.eventOf(codec.eventText(first)) == first && Plain(codec.eventText(first));
      assert ([printed] + rest)[1..] == rest;
      assert ([Sse.Meaning(printed)] + Meanings(rest))[1..] == Meanings(rest);
      assert [first] + events[1..] == events;
    }
  }

  lemma EndIsPlain()
    ensures OneLine(TEXT_LINES, END) && !IsSpace(END[0])
  {
  }

  lemma {:induction false} ChatPrintable(codec: Codec, frames: seq<ChatFrame>)
    requires codec.Valid()
    ensures AllPrintable(PrintChat(codec, frames))
    ensures ReadChat(codec, Meanings(PrintChat(codec, frames))) == frames
  {
    EndIsPlain();
    hide IsSpace, OneLine;
    if frames == [] {
    } else {
      var first, rest := frames[0], PrintChat(codec, frames[1..]);
      var printed := Data(if first.Done? then END else codec.chatText(first));
      ChatPrintable(codec, frames[1..]);
      assert !first.Done? ==> codec.chatOf(codec.chatText(first)) == first && Plain(codec.chatText(first));
      assert ([printed] + rest)[1..] == rest;
      assert ([Sse.Meaning(printed)] + Meanings(rest))[1..] == Meanings(rest);
      assert [first] + frames[1..] == frames;
    }
  }

  /**
   Chat text, cut anywhere, translated to message text, cut anywhere again, translated back and cut once more,
   means what it meant.
   */
  lemma TextRoundTrip(codec: Codec, chunks: seq<string>, middle: seq<string>, back: seq<string>)
    requires codec.Valid()
    requires Concat(middle) == MessageText(codec, chunks) && Concat(back) == ChatText(codec, middle)
    ensures SameMeaning(MeaningOf(ReadChat(codec, SseEvents(chunks))), MeaningOf(ReadChat(codec, SseEvents(back))))
  {
    hide SseEvents, MeaningOf, SameMeaning, ToAnthropic, ToChat, PrintEvents, PrintChat, ReadChat, ReadMessages, PrintAll;
    var frames := ReadChat(codec, SseEvents(chunks));
    var events := ToAnthropic(frames);
    EventsPrintable(codec, events);
    PrintThenRead(PrintEvents(codec, events), middle);
    ChatPrintable(codec, ToChat(events));
    PrintThenRead(PrintChat(codec, ToChat(events)), back);
    RoundTripKeepsMeaning(frames);
  }

  /** Each message event is printed under the name of its kind. */
  lemma {:induction false} EventsAreNamed(codec: Codec, events: seq<MessageEvent>, k: nat)
    ensures |PrintEvents(codec, events)| == |events|
    ensures k < |events| ==>
              var frame := PrintEvents(codec, events)[k];
              && frame.EventData? && frame.data == codec.eventText(events[k])
              && (frame.name == "message_start" <==> events[k].MessageStart?)
              && (frame.name == "content_block_start" <==> events[k].BlockStart?)
              && (frame.name == "content_block_delta" <==> events[k].BlockDelta?)
              && (frame.name == "content_block_stop" <==> events[k].BlockStop?)
              && (frame.name == "message_delta" <==> events[k].MessageDelta?)
              && (frame.name == "message_stop" <==> events[k].MessageStop?)
              && (frame.name == "error" <==> events[k].ErrorEvent?)
    decreases |events|
  {
    if events == [] {
    } else {
      EventsAreNamed(codec, events[1..], if k > 0 then k - 1 else 0);
      NamesTellKinds(events[0]);
      hide EventName;
    }
  }

  lemma NamesTellKinds(e: MessageEvent)
    ensures EventName(e) == "message_start" <==> e.MessageStart?
    ensures EventName(e) == "content_block_start" <==> e.BlockStart?
    ensures EventName(e) == "content_block_delta" <==> e.BlockDelta?
    ensures EventName(e) == "content_block_stop" <==> e.BlockStop?
    ensures EventName(e) == "message_delta" <==> e.MessageDelta?
    ensures EventName(e) == "message_stop" <==> e.MessageStop?
    ensures EventName(e) == "error" <==> e.ErrorEvent?
  {
  }

  /** End markers are passed over in a message stream, wherever they stand; in a chat stream each is an end marker. */
  lemma {:induction false} MarkersAreRead(codec: Codec, before: seq<Event>, event: Event, later: seq<Event>)
    ensures ReadMessages(codec, before + [event] + later)
         == ReadMessages(codec, before) + (if event.data == END then [] else [codec.eventOf(event.data)]) + ReadMessages(codec, later)
    ensures ReadChat(codec, before + [event] + later)
         == ReadChat(codec, before) + [if event.data == END then Done else codec.chatOf(event.data)] + ReadChat(codec, later)
  {
    ReadAppend(codec, before + [event], later);
    ReadAppend(codec, before, [event]);
    assert [event][1..] == [];
  }

  lemma {:induction false} ReadAppend(codec: Codec, a: seq<Event>, b: seq<Event>)
    ensures ReadMessages(codec, a + b) == ReadMessages(codec, a) + ReadMessages(codec, b)
    ensures ReadChat(codec, a + b) == ReadChat(codec, a) + ReadChat(codec, b)
  {
    if a == [] {
      assert a + b == b;
    } else {
      assert (a + b)[1..] == a[1..] + b;
      ReadAppend(codec, a[1..], b);
    }
  }
}
