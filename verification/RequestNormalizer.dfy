/**
 Whole requests: the two converters as the loops that build them, and when normalising a request is
 idempotent or the identity.
 */
module RequestNormalizer {
  import opened Wrappers
  import opened Normalizer

  // ---------- The converters

  /** The chat messages of a block list, appended to what is there; texts and calls are spoken last. */
  method ConvertBlocks(codec: Codec, role: Role, blocks: seq<Block>, before: seq<ChatMessage>) returns (messages: seq<ChatMessage>)
    ensures messages == before + Convert(codec, Message(role, Blocks(blocks)))
  {
    messages := before;
    var texts: seq<string>, uses: seq<ChatCall> := [], [];
    for i := 0 to |blocks|
      invariant texts == Texts(blocks[..i]) && uses == Uses(codec, blocks[..i])
      invariant messages == before + Results(blocks[..i])
    {
      hide WordsToText;
      assert blocks[..i + 1][..i] == blocks[..i];
      match blocks[i]
      case Text(text) => texts := texts + [text];
      case ToolUse(id, name, input) => uses := uses + [ChatCall(id, name, codec.dumps(input))];
      case ToolResult(id, content) =>
        Assoc(before, Results(blocks[..i]), [ToolMessage(id, WordsToText(content))]);
        messages := messages + [ToolMessage(id, WordsToText(content))];
    }
    assert blocks[..|blocks|] == blocks;
    if texts != [] || uses != [] {
      var spoken := Spoken(role, if texts == [] then Nothing else Parts(texts), uses);
      Assoc(before, Results(blocks), [spoken]);
      messages := messages + [spoken];
    }
  }

  method AnthropicToOpenAI(codec: Codec, r: Request) returns (chat: ChatRequest)
    ensures chat == ToOpenAI(codec, r)
  {
    hide Convert, WordsToText;
    var messages: seq<ChatMessage> := [];
    if r.system.Some? && !Falsy(r.system.value) {
      messages := [SystemMessage(WordsToText(r.system.value))];
    }
    var system := messages;
    for i := 0 to |r.messages|
      invariant messages == system + ConvertAll(codec, r.messages[..i])
    {
      var m := r.messages[i];
      assert r.messages[..i + 1][..i] == r.messages[..i];
      Assoc(system, ConvertAll(codec, r.messages[..i]), Convert(codec, m));
      match m.content
      case Plain(text) =>
        PlainIsSpoken(codec, m);
        messages := messages + [Spoken(m.role, Line(text), [])];
      case Blocks(blocks) =>
        messages := ConvertBlocks(codec, m.role, blocks, messages);
    }
    assert r.messages[..|r.messages|] == r.messages;
    var effort := r.effort;
    if effort.None? && r.thinking.Some? && r.thinking.value.Enabled? {
      effort := Some(BudgetToEffort(r.thinking.value.budget));
    }
    var choice: Option<ChatChoice> := None;
    if r.choice.Some? {
      match r.choice.value
      case Auto => choice := Some(ChatAuto);
      case Any => choice := Some(Required);
      case NoTool => choice := Some(ChatNone);
      case Named(name) => choice := Some(Function(name));
    }
    chat := ChatRequest(messages, choice, effort);
  }

  lemma PlainIsSpoken(codec: Codec, m: Message)
    requires m.content.Plain?
    ensures Convert(codec, m) == [Spoken(m.role, Line(m.content.text), [])]
  {
  }

  /** Appends a tool result to the turn before it when that is a user turn of tool results only. */
  method AddResult(codec: Codec, before: seq<Message>, id: string, text: string) returns (messages: seq<Message>)
    ensures messages == Push(codec, before, ToolMessage(id, text))
  {
    messages := before;
    var block := ToolResult(id, Items([text]));
    var merge := false;
    if messages != [] {
      var previous := messages[|messages| - 1];
      if previous.role == User && previous.content.Blocks? && previous.content.blocks != [] {
        merge := true;
        var blocks := previous.content.blocks;
        for i := 0 to |blocks|
          invariant merge <==> forall j | 0 <= j < i :: blocks[j].ToolResult?
        {
          merge := merge && blocks[i].ToolResult?;
        }
      }
    }
    if merge {
      var last := |messages| - 1;
      messages := messages[..last] + [Message(User, Blocks(messages[last].content.blocks + [block]))];
    } else {
      messages := messages + [Message(User, Blocks([block]))];
    }
  }

  method SpeakBlocks(codec: Codec, role: Role, content: ChatContent, calls: seq<ChatCall>) returns (blocks: seq<Block>)
    ensures blocks == TextBlocks(content) + (if role == Assistant then UseBlocks(codec, calls) else [])
  {
    hide Arguments;
    blocks := [];
    match content {
      case Nothing =>
      case Line(text) => blocks := [Text(text)];
      case Parts(texts) =>
        for i := 0 to |texts|
          invariant blocks == TextBlocks(Parts(texts[..i]))
        {
          blocks := blocks + [Text(texts[i])];
        }
        assert texts[..|texts|] == texts;
    }
    if role == Assistant {
      ghost var words := blocks;
      for i := 0 to |calls|
        invariant blocks == words + UseBlocks(codec, calls[..i])
      {
        var block := ToolUse(calls[i].id, calls[i].name, Arguments(codec, calls[i].arguments));
        assert UseBlocks(codec, calls[..i + 1]) == UseBlocks(codec, calls[..i]) + [block];
        Assoc(words, UseBlocks(codec, calls[..i]), [block]);
        blocks := blocks + [block];
      }
      assert calls[..|calls|] == calls;
    }
  }

  method OpenAIToAnthropic(codec: Codec, chat: ChatRequest) returns (r: Request)
    ensures r == ToAnthropic(codec, chat)
  {
    var systems: seq<string>, messages: seq<Message> := [], [];
    for i := 0 to |chat.messages|
      invariant systems == Systems(chat.messages[..i])
      invariant messages == PushAll(codec, [], chat.messages[..i])
    {
      hide TextBlocks, UseBlocks, EndsInResults;
      assert chat.messages[..i + 1][..i] == chat.messages[..i];
      match chat.messages[i]
      case SystemMessage(text) => systems := systems + [text];
      case ToolMessage(id, text) => messages := AddResult(codec, messages, id, text);
      case Spoken(role, content, calls) =>
        var blocks := SpeakBlocks(codec, role, content, calls);
        messages := messages + [Message(role, Blocks(blocks))];
      case OtherRole =>
    }
    assert chat.messages[..|chat.messages|] == chat.messages;
    var choice: Option<Choice> := None;
    if chat.choice.Some? {
      match chat.choice.value
      case ChatAuto => choice := Some(Auto);
      case Required => choice := Some(Any);
      case ChatNone =>
      case Function(name) => choice := Some(Named(name));
    }
    r := Request(if systems == [] then None else Some(Words(Join(systems, "\n\n"))), messages, choice, chat.effort, None);
  }

  // ---------- A normalised request, part by part

  ghost predicate NoSystems(messages: seq<ChatMessage>) {
    forall i | 0 <= i < |messages| :: !messages[i].SystemMessage?
  }

  lemma {:induction false} ConvertAllHasNoSystems(codec: Codec, messages: seq<Message>)
    ensures NoSystems(ConvertAll(codec, messages))
  {
    hide Convert;
    if messages == [] {
    } else {
      ConvertAllHasNoSystems(codec, messages[..|messages| - 1]);
      ConvertIsSubstantial(codec, messages[|messages| - 1]);
    }
  }

  lemma {:induction false} SystemsFirst(a: seq<ChatMessage>, b: seq<ChatMessage>)
    requires NoSystems(b)
    ensures Systems(a + b) == Systems(a)
    decreases |b|
  {
    if b == [] {
      assert a + b == a;
    } else {
      assert (a + b)[..|a + b| - 1] == a + b[..|b| - 1];
      SystemsFirst(a, b[..|b| - 1]);
    }
  }

  predicate Spoke(system: Option<Words>) {
    system.Some? && !Falsy(system.value)
  }

  lemma NormalSystem(system: Option<Words>)
    ensures Systems(SystemMessages(system)) == if Spoke(system) then [WordsToText(system.value)] else []
    ensures forall codec: Codec :: PushAll(codec, [], SystemMessages(system)) == []
  {
    hide WordsToText;
    if Spoke(system) {
      assert SystemMessages(system)[..0] == [];
    }
  }

  lemma NormalizeByParts(codec: Codec, r: Request)
    ensures Normalize(codec, r)
         == Request(if Spoke(r.system) then Some(Words(WordsToText(r.system.value))) else None,
                    NormalTurns(codec, r.messages),
                    if r.choice == Some(NoTool) then None else r.choice, EffortOf(r), None)
  {
    hide WordsToText, PushAll, ConvertAll, Systems, SystemMessages, EffortOf;
    var system, rest := SystemMessages(r.system), ConvertAll(codec, r.messages);
    ConvertAllHasNoSystems(codec, r.messages);
    SystemsFirst(system, rest);
    NormalSystem(r.system);
    PushAllAppend(codec, [], system, rest);
    JoinOne(if Spoke(r.system) then WordsToText(r.system.value) else "");
  }

  lemma JoinOne(text: string)
    ensures Join([text], "\n\n") == text
  {
  }

  // ---------- When normalising is idempotent, and when the identity

  /** A system prompt that is present but empty once flattened. */
  predicate HollowSystem(r: Request) {
    Spoke(r.system) && WordsToText(r.system.value) == ""
  }

  lemma NormalizeIdempotentIff(codec: Codec, r: Request)
    requires codec.Valid()
    ensures Normalize(codec, Normalize(codec, r)) == Normalize(codec, r)
       <==> NoToolOnlyUser(codec, r.messages) && !HollowSystem(r)
  {
    hide NormalTurns, NoToolOnlyUser, BudgetToEffort, Normalize;
    NormalizeByParts(codec, r);
    NormalizeByParts(codec, Normalize(codec, r));
    IdempotentIffNoToolOnlyUser(codec, r.messages);
  }

  ghost predicate CanonicalRequest(r: Request) {
    && Canonical(r.messages) && r.choice != Some(NoTool) && r.thinking.None?
    && (r.system.None? || (r.system.value.Words? && r.system.value.text != ""))
  }

  lemma NormalizeFixedIff(codec: Codec, r: Request)
    requires codec.Valid()
    ensures Normalize(codec, r) == r <==> CanonicalRequest(r)
  {
    hide NormalTurns, BudgetToEffort, Normalize, Canonical;
    NormalizeByParts(codec, r);
    FixedIffCanonical(codec, r.messages);
  }

  lemma LoneCallConverts(codec: Codec, call: Block)
    requires call.ToolUse?
    ensures Convert(codec, Message(User, Blocks([call])))
         == [Spoken(User, Nothing, [ChatCall(call.id, call.name, codec.dumps(call.input))])]
  {
    assert [call][..0] == [];
    assert Uses(codec, []) == [];
    var uses := [ChatCall(call.id, call.name, codec.dumps(call.input))];
    assert [] + uses == uses;
    assert Texts([call]) == [] && Uses(codec, [call]) == uses && Results([call]) == [];
  }

  lemma NormalTurnsOfOne(codec: Codec, m: Message)
    ensures NormalTurns(codec, [m]) == PushAll(codec, [], Convert(codec, m))
  {
    hide Convert;
    NormalTurnsSnoc(codec, [], m);
    assert [] + [m] == [m];
  }

  /** One user message with a call and nothing else: normalising twice loses the turn that once leaves empty. */
  lemma ToolOnlyUserVanishes(codec: Codec, call: Block)
    requires call.ToolUse?
    ensures var said := [Message(User, Blocks([call]))];
            && NormalTurns(codec, said) == [Message(User, Blocks([]))]
            && NormalTurns(codec, NormalTurns(codec, said)) == []
  {
    hide NormalTurns;
    var m, empty := Message(User, Blocks([call])), Message(User, Blocks([]));
    LoneCallConverts(codec, call);
    NormalTurnsOfOne(codec, m);
    NormalTurnsOfOne(codec, empty);
    assert Convert(codec, empty) == [];
    hide Convert;
    var spoken := Spoken(User, Nothing, [ChatCall(call.id, call.name, codec.dumps(call.input))]);
    PushAllOne(codec, [], spoken);
    assert Push(codec, [], spoken) == [empty];
  }
}
