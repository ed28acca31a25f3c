/**
 How the parts of one request are converted, each way on its own.
 */
module RequestRules {
  import opened Wrappers
  import opened Normalizer
  import opened RequestNormalizer

  // ---------- Tool choice and effort

  /** "any" is "required" and back; "none" goes over but does not come back. */
  lemma ChoicesCorrespond(codec: Codec, r: Request, chat: ChatRequest)
    ensures var there := ToOpenAI(codec, r).choice;
            && (there == None <==> r.choice == None)
            && (there == Some(ChatAuto) <==> r.choice == Some(Auto))
            && (there == Some(Required) <==> r.choice == Some(Any))
            && (there == Some(ChatNone) <==> r.choice == Some(NoTool))
            && forall name :: there == Some(Function(name)) <==> r.choice == Some(Named(name))
    ensures var back := ToAnthropic(codec, chat).choice;
            && (back == None <==> chat.choice == None || chat.choice == Some(ChatNone))
            && (back == Some(Auto) <==> chat.choice == Some(ChatAuto))
            && (back == Some(Any) <==> chat.choice == Some(Required))
            && forall name :: back == Some(Named(name)) <==> chat.choice == Some(Function(name))
  {
    hide SystemMessages, ConvertAll, EffortOf, Systems, PushAll, Join;
  }

  /** An explicit effort is kept; else an enabled thinking budget gives a rung, the higher the larger; else there is none. */
  lemma EffortIsTheRung(codec: Codec, r: Request)
    ensures var effort := ToOpenAI(codec, r).effort;
            && (r.effort.Some? ==> effort == r.effort)
            && (r.effort.None? && (r.thinking.None? || r.thinking.value.Disabled?) ==> effort == None)
            && (r.effort.None? && r.thinking == Some(Enabled(None)) ==> effort == Some("medium"))
            && forall n :: r.effort.None? && r.thinking == Some(Enabled(Some(n))) ==>
                 && (effort == Some("low") <==> n <= 2_000)
                 && (effort == Some("medium") <==> 2_000 < n <= 8_000)
                 && (effort == Some("high") <==> 8_000 < n <= 16_000)
                 && (effort == Some("xhigh") <==> 16_000 < n <= 24_000)
                 && (effort == Some("max") <==> n > 24_000)
  {
    hide SystemMessages, ConvertAll;
  }

  // ---------- System prompts

  /** The prompt, unless empty, is the one system message of the chat, and its first message. */
  lemma PromptComesFirst(codec: Codec, r: Request)
    ensures var chat := ToOpenAI(codec, r).messages;
            if r.system.None? || r.system.value == Words("") || r.system.value == Items([]) then NoSystems(chat)
            else chat != [] && chat[0] == SystemMessage(WordsToText(r.system.value)) && NoSystems(chat[1..])
  {
    hide WordsToText, Convert;
    ConvertAllHasNoSystems(codec, r.messages);
    var rest := ConvertAll(codec, r.messages);
    if r.system.Some? && !Falsy(r.system.value) {
      assert ([SystemMessage(WordsToText(r.system.value))] + rest)[1..] == rest;
    } else {
      assert [] + rest == rest;
    }
  }

  lemma {:induction false} SystemsAppend(a: seq<ChatMessage>, b: seq<ChatMessage>)
    ensures Systems(a + b) == Systems(a) + Systems(b)
    decreases |b|
  {
    if b == [] {
      assert a + b == a;
    } else {
      var front, last := b[..|b| - 1], b[|b| - 1];
      assert (a + b)[..|a + b| - 1] == a + front;
      SystemsAppend(a, front);
      Assoc(Systems(a), Systems(front), if last.SystemMessage? then [last.text] else []);
    }
  }

  /** Coming back, the system messages make the prompt, in order, wherever they stand; without one there is no prompt. */
  lemma PromptsAreCollected(codec: Codec, a: seq<ChatMessage>, m: ChatMessage, b: seq<ChatMessage>)
    ensures Systems(a + [m] + b) == Systems(a) + (if m.SystemMessage? then [m.text] else []) + Systems(b)
    ensures forall chat: ChatRequest :: ToAnthropic(codec, chat).system
                 == if Systems(chat.messages) == [] then None else Some(Words(Join(Systems(chat.messages), "\n\n")))
  {
    SystemsAppend(a + [m], b);
    SystemsAppend(a, [m]);
    assert [m][..0] == [];
    hide PushAll, Join;
  }

  /** A list of text items reads as the texts on lines of their own. */
  lemma ItemsAreLines(a: seq<string>, b: seq<string>)
    ensures WordsToText(Items([])) == "" && (|a| == 1 ==> WordsToText(Items(a)) == a[0]) && WordsToText(Words("")) == ""
    ensures a != [] && b != [] ==> WordsToText(Items(a + b)) == WordsToText(Items(a)) + "\n" + WordsToText(Items(b))
  {
    JoinAppend(a, b, "\n");
  }

  // ---------- Messages

  /** One message becomes its tool results, each a message of its own, and after them at most one more by the same role:
      there is one exactly when there is a text or a call. */
  lemma ResultsThenWords(codec: Codec, m: Message)
    ensures var chat := Convert(codec, m);
            && (forall i | 0 <= i < |chat| - 1 :: chat[i].ToolMessage?)
            && (chat != [] && !chat[|chat| - 1].ToolMessage? ==> chat[|chat| - 1].Spoken? && chat[|chat| - 1].role == m.role)
            && (m.content.Plain? ==> chat == [Spoken(m.role, Line(m.content.text), [])])
            && (m.content.Blocks? ==>
                  (chat != [] && chat[|chat| - 1].Spoken?
                   <==> exists i | 0 <= i < |m.content.blocks| :: m.content.blocks[i].Text? || m.content.blocks[i].ToolUse?))
  {
    if m.content.Blocks? {
      var blocks := m.content.blocks;
      ResultsAreToolMessages(blocks);
      NothingSaidIff(codec, blocks);
      hide Texts, Uses, Results;
    }
  }

  lemma {:induction false} NothingSaidIff(codec: Codec, blocks: seq<Block>)
    ensures Texts(blocks) == [] && Uses(codec, blocks) == []
       <==> forall i | 0 <= i < |blocks| :: !blocks[i].Text? && !blocks[i].ToolUse?
  {
    if blocks == [] {
    } else {
      NothingSaidIff(codec, blocks[..|blocks| - 1]);
    }
  }

  /** Arguments are read as JSON, nothing as {}, and text that is not JSON is kept under "raw". */
  lemma BadArgumentsAreKept(codec: Codec, calls: seq<ChatCall>, k: nat)
    ensures k < |calls| ==>
              var block, text := UseBlocks(codec, calls)[k], calls[k].arguments;
              && block.ToolUse? && block.id == calls[k].id && block.name == calls[k].name
              && (text != "" && codec.loads(text).Some? ==> block.input == codec.loads(text).value)
              && (text != "" && codec.loads(text).None? ==> block.input == Object([("raw", Str(text))]))
              && (text == "" && codec.loads("{}").Some? ==> block.input == codec.loads("{}").value)
  {
  }
}
