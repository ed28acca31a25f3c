/**
 The request normaliser pair: Anthropic-style requests to OpenAI-style ones and back, for
 conversations of text, tool calls and tool results.
 */
module Normalizer {
  import opened Wrappers

  datatype Json = Null | Bool(b: bool) | Number(n: int) | Str(s: string) | Array(items: seq<Json>) | Object(fields: seq<(string, Json)>)

  /** JSON text of tool arguments; `loads` fails on malformed text. */
  datatype Codec = Codec(dumps: Json -> string, loads: string -> Option<Json>) {
    ghost predicate Valid() {
      forall j :: loads(dumps(j)) == Some(j) && dumps(j) != ""
    }
  }

  datatype Role = User | Assistant

  /** Text, or a list of items known by the text each contributes. */
  datatype Words = Words(text: string) | Items(texts: seq<string>)

  datatype Block = Text(text: string) | ToolUse(id: string, name: string, input: Json) | ToolResult(id: string, content: Words)

  datatype Content = Plain(text: string) | Blocks(blocks: seq<Block>)

  datatype Message = Message(role: Role, content: Content)

  datatype Choice = Auto | Any | NoTool | Named(name: string)

  datatype Thinking = Enabled(budget: Option<int>) | Disabled

  datatype Request = Request(system: Option<Words>, messages: seq<Message>, choice: Option<Choice>,
                             effort: Option<string>, thinking: Option<Thinking>)

  datatype ChatCall = ChatCall(id: string, name: string, arguments: string)

  datatype ChatContent = Nothing | Line(text: string) | Parts(texts: seq<string>)

  datatype ChatMessage =
    | SystemMessage(text: string)
    | ToolMessage(id: string, text: string)
    | Spoken(role: Role, content: ChatContent, calls: seq<ChatCall>)
    | OtherRole

  /** "auto", "required", "none", or a function by name. */
  datatype ChatChoice = ChatAuto | Required | ChatNone | Function(name: string)

  datatype ChatRequest = ChatRequest(messages: seq<ChatMessage>, choice: Option<ChatChoice>, effort: Option<string>)

  function WordsToText(words: Words): string {
    match words case Words(text) => text case Items(texts) => Join(texts, "\n")
  }

  // ---------- Anthropic to OpenAI

  function Texts(blocks: seq<Block>): seq<string> {
    if blocks == [] then []
    else
      var last := blocks[|blocks| - 1];
      Texts(blocks[..|blocks| - 1]) + (if last.Text? then [last.text] else [])
  }

  function Uses(codec: Codec, blocks: seq<Block>): seq<ChatCall> {
    if blocks == [] then []
    else
      var last := blocks[|blocks| - 1];
      Uses(codec, blocks[..|blocks| - 1]) + (if last.ToolUse? then [ChatCall(last.id, last.name, codec.dumps(last.input))] else [])
  }

  function Results(blocks: seq<Block>): seq<ChatMessage> {
    if blocks == [] then []
    else
      var last := blocks[|blocks| - 1];
      Results(blocks[..|blocks| - 1]) + (if last.ToolResult? then [ToolMessage(last.id, WordsToText(last.content))] else [])
  }

  /** The chat messages of one message: its tool results, then what it says. */
  function Convert(codec: Codec, m: Message): seq<ChatMessage> {
    match m.content
    case Plain(text) => [Spoken(m.role, Line(text), [])]
    case Blocks(blocks) =>
      var texts, uses := Texts(blocks), Uses(codec, blocks);
      Results(blocks) + (if texts != [] || uses != [] then [Spoken(m.role, if texts == [] then Nothing else Parts(texts), uses)] else [])
  }

  function ConvertAll(codec: Codec, messages: seq<Message>): seq<ChatMessage> {
    if messages == [] then [] else ConvertAll(codec, messages[..|messages| - 1]) + Convert(codec, messages[|messages| - 1])
  }

  predicate Falsy(words: Words) {
    words == Words("") || words == Items([])
  }

  function SystemMessages(system: Option<Words>): seq<ChatMessage> {
    if system.Some? && !Falsy(system.value) then [SystemMessage(WordsToText(system.value))] else []
  }

  function BudgetToEffort(budget: Option<int>): string {
    match budget
    case None => "medium"
    case Some(n) =>
      if n <= 2_000 then "low" else if n <= 8_000 then "medium" else if n <= 16_000 then "high"
      else if n <= 24_000 then "xhigh" else "max"
  }

  /** The explicit effort, else the rung of an enabled thinking budget. */
  function EffortOf(r: Request): Option<string> {
    if r.effort.Some? then r.effort
    else if r.thinking.Some? && r.thinking.value.Enabled? then Some(BudgetToEffort(r.thinking.value.budget))
    else None
  }

  function ChatChoiceOf(choice: Choice): ChatChoice {
    match choice case Auto => ChatAuto case Any => Required case NoTool => ChatNone case Named(name) => Function(name)
  }

  function ToOpenAI(codec: Codec, r: Request): ChatRequest {
    ChatRequest(SystemMessages(r.system) + ConvertAll(codec, r.messages),
                if r.choice.Some? then Some(ChatChoiceOf(r.choice.value)) else None, EffortOf(r))
  }

  // ---------- OpenAI to Anthropic

  function TextBlocks(content: ChatContent): seq<Block> {
    match content
    case Nothing => []
    case Line(text) => [Text(text)]
    case Parts(texts) => seq(|texts|, i requires 0 <= i < |texts| => Text(texts[i]))
  }

  function Arguments(codec: Codec, text: string): Json {
    match codec.loads(if text == "" then "{}" else text)
    case Some(value) => value
    case None => Object([("raw", Str(text))])
  }

  function UseBlocks(codec: Codec, calls: seq<ChatCall>): seq<Block> {
    seq(|calls|, i requires 0 <= i < |calls| => ToolUse(calls[i].id, calls[i].name, Arguments(codec, calls[i].arguments)))
  }

  /** A user turn of tool results and nothing else. */
  predicate IsResultTurn(m: Message) {
    m.role == User && m.content.Blocks? && m.content.blocks != []
    && forall i | 0 <= i < |m.content.blocks| :: m.content.blocks[i].ToolResult?
  }

  predicate EndsInResults(messages: seq<Message>) {
    messages != [] && IsResultTurn(messages[|messages| - 1])
  }

  /** Adds one chat message to the turns built so far. */
  function Push(codec: Codec, messages: seq<Message>, m: ChatMessage): seq<Message> {
    match m
    case SystemMessage(_) => messages
    case OtherRole => messages
    case ToolMessage(id, text) =>
      var block := ToolResult(id, Items([text]));
      if EndsInResults(messages) then
        var previous := messages[|messages| - 1];
        messages[..|messages| - 1] + [Message(User, Blocks(previous.content.blocks + [block]))]
      else messages + [Message(User, Blocks([block]))]
    case Spoken(role, content, calls) =>
      messages + [Message(role, Blocks(TextBlocks(content) + (if role == Assistant then UseBlocks(codec, calls) else [])))]
  }

  function PushAll(codec: Codec, messages: seq<Message>, more: seq<ChatMessage>): seq<Message>
    decreases |more|
  {
    if more == [] then messages else Push(codec, PushAll(codec, messages, more[..|more| - 1]), more[|more| - 1])
  }

  function Systems(messages: seq<ChatMessage>): seq<string> {
    if messages == [] then []
    else
      var last := messages[|messages| - 1];
      Systems(messages[..|messages| - 1]) + (if last.SystemMessage? then [last.text] else [])
  }

  /** "none" has no counterpart and is dropped. */
  function ChoiceOf(choice: ChatChoice): Option<Choice> {
    match choice
    case ChatAuto => Some(Auto)
    case Required => Some(Any)
    case ChatNone => None
    case Function(name) => Some(Named(name))
  }

  function ToAnthropic(codec: Codec, r: ChatRequest): Request {
    var systems := Systems(r.messages);
    Request(if systems == [] then None else Some(Words(Join(systems, "\n\n"))),
            PushAll(codec, [], r.messages),
            if r.choice.Some? then ChoiceOf(r.choice.value) else None,
            r.effort, None)
  }

  function Normalize(codec: Codec, r: Request): Request {
    ToAnthropic(codec, ToOpenAI(codec, r))
  }

  /** The messages of a normalised request. */
  function NormalTurns(codec: Codec, messages: seq<Message>): seq<Message> {
    PushAll(codec, [], ConvertAll(codec, messages))
  }

  // ---------- Append laws

  lemma {:induction false} PushAllAppend(codec: Codec, messages: seq<Message>, a: seq<ChatMessage>, b: seq<ChatMessage>)
    ensures PushAll(codec, messages, a + b) == PushAll(codec, PushAll(codec, messages, a), b)
    decreases |b|
  {
    hide Push;
    if b == [] {
      assert a + b == a;
    } else {
      assert (a + b)[..|a + b| - 1] == a + b[..|b| - 1];
      PushAllAppend(codec, messages, a, b[..|b| - 1]);
    }
  }

  lemma PushAllOne(codec: Codec, messages: seq<Message>, m: ChatMessage)
    ensures PushAll(codec, messages, [m]) == Push(codec, messages, m)
  {
    assert [m][..0] == [];
  }

  lemma NormalTurnsSnoc(codec: Codec, messages: seq<Message>, last: Message)
    ensures NormalTurns(codec, messages + [last]) == PushAll(codec, NormalTurns(codec, messages), Convert(codec, last))
  {
    assert (messages + [last])[..|messages|] == messages;
    PushAllAppend(codec, [], ConvertAll(codec, messages), Convert(codec, last));
  }

  // ---------- Canonical conversations

  ghost predicate AllText(blocks: seq<Block>) {
    forall i | 0 <= i < |blocks| :: blocks[i].Text?
  }

  /** Texts first, then tool calls. */
  ghost predicate TextsThenUses(blocks: seq<Block>, n: nat) {
    && n <= |blocks| && (forall i | 0 <= i < n :: blocks[i].Text?)
    && forall i | n <= i < |blocks| :: blocks[i].ToolUse?
  }

  /** Tool results whose content is a list of one text item. */
  ghost predicate PlainResults(blocks: seq<Block>) {
    forall i | 0 <= i < |blocks| :: blocks[i].ToolResult? && blocks[i].content.Items? && |blocks[i].content.texts| == 1
  }

  ghost predicate CanonicalTurn(m: Message) {
    && m.content.Blocks? && m.content.blocks != []
    && match m.role
       case User => AllText(m.content.blocks) || PlainResults(m.content.blocks)
       case Assistant => exists n :: TextsThenUses(m.content.blocks, n)
  }

  predicate EmptyUser(m: Message) {
    m == Message(User, Blocks([]))
  }

  /** Every turn is canonical or an empty user turn, and result turns never follow each other. */
  ghost predicate Tidy(messages: seq<Message>) {
    && (forall i | 0 <= i < |messages| :: CanonicalTurn(messages[i]) || EmptyUser(messages[i]))
    && forall i | 0 < i < |messages| :: !(IsResultTurn(messages[i - 1]) && IsResultTurn(messages[i]))
  }

  ghost predicate NoEmptyUser(messages: seq<Message>) {
    forall i | 0 <= i < |messages| :: !EmptyUser(messages[i])
  }

  ghost predicate Canonical(messages: seq<Message>) {
    Tidy(messages) && NoEmptyUser(messages)
  }

  /** A user message with tool calls but no text: only the assistant's calls are kept. */
  predicate ToolOnlyUser(codec: Codec, m: Message) {
    m.role == User && m.content.Blocks? && Texts(m.content.blocks) == [] && Uses(codec, m.content.blocks) != []
  }

  ghost predicate NoToolOnlyUser(codec: Codec, messages: seq<Message>) {
    forall i | 0 <= i < |messages| :: !ToolOnlyUser(codec, messages[i])
  }

  // ---------- Every normalised conversation is tidy

  /** What an assistant says is never empty. */
  predicate Substantial(codec: Codec, m: ChatMessage) {
    m.Spoken? && m.role == Assistant ==> TextBlocks(m.content) != [] || m.calls != []
  }

  ghost predicate AllSubstantial(codec: Codec, messages: seq<ChatMessage>) {
    forall i | 0 <= i < |messages| :: Substantial(codec, messages[i])
  }

  /** The turn that pushing `m` leaves last. */
  ghost predicate LeavesTidyTurn(codec: Codec, messages: seq<Message>, m: ChatMessage) {
    var after := Push(codec, messages, m);
    after != [] && (CanonicalTurn(after[|after| - 1]) || EmptyUser(after[|after| - 1]))
  }

  lemma MoreResultsAreTidy(blocks: seq<Block>, id: string, text: string)
    requires PlainResults(blocks)
    ensures CanonicalTurn(Message(User, Blocks(blocks + [ToolResult(id, Items([text]))])))
  {
  }

  lemma PushedResultIsTidy(codec: Codec, messages: seq<Message>, m: ChatMessage)
    requires Tidy(messages) && m.ToolMessage?
    ensures LeavesTidyTurn(codec, messages, m)
  {
    if EndsInResults(messages) {
      var previous := messages[|messages| - 1];
      assert CanonicalTurn(previous) || EmptyUser(previous);
      assert previous.content.blocks[0].ToolResult?;
      assert PlainResults(previous.content.blocks);
      hide Tidy, IsResultTurn, CanonicalTurn;
      MoreResultsAreTidy(previous.content.blocks, m.id, m.text);
    } else {
      hide Tidy, CanonicalTurn;
      MoreResultsAreTidy([], m.id, m.text);
      assert [] + [ToolResult(m.id, Items([m.text]))] == [ToolResult(m.id, Items([m.text]))];
    }
  }

  lemma SpokenTurnIsTidy(codec: Codec, m: ChatMessage)
    requires m.Spoken? && Substantial(codec, m)
    ensures var blocks := TextBlocks(m.content) + (if m.role == Assistant then UseBlocks(codec, m.calls) else []);
            var turn := Message(m.role, Blocks(blocks)); CanonicalTurn(turn) || EmptyUser(turn)
  {
    var texts := TextBlocks(m.content);
    if m.role == Assistant {
      assert TextsThenUses(texts + UseBlocks(codec, m.calls), |texts|);
    } else {
      assert texts + [] == texts;
    }
  }

  lemma PushedTurnIsTidy(codec: Codec, messages: seq<Message>, m: ChatMessage)
    requires Tidy(messages) && Substantial(codec, m) && !m.SystemMessage? && !m.OtherRole?
    ensures LeavesTidyTurn(codec, messages, m)
  {
    hide Tidy, CanonicalTurn, Substantial;
    match m {
      case ToolMessage(_, _) => PushedResultIsTidy(codec, messages, m);
      case Spoken(_, _, _) => SpokenTurnIsTidy(codec, m);
    }
  }

  lemma PushIsTidy(codec: Codec, messages: seq<Message>, m: ChatMessage)
    requires Tidy(messages) && Substantial(codec, m)
    ensures Tidy(Push(codec, messages, m))
  {
    if !m.SystemMessage? && !m.OtherRole? {
      var after := Push(codec, messages, m);
      PushedTurnIsTidy(codec, messages, m);
      if m.Spoken? {
        SpokenIsNoResultTurn(codec, messages, m);
      }
      hide CanonicalTurn;
      assert forall i | 0 <= i < |after| - 1 :: after[i] == messages[i];
    }
  }

  lemma SpokenIsNoResultTurn(codec: Codec, messages: seq<Message>, m: ChatMessage)
    requires m.Spoken?
    ensures !EndsInResults(Push(codec, messages, m))
  {
    var turn := Push(codec, messages, m)[|messages|];
    if m.role == User && turn.content.blocks != [] {
      assert turn.content.blocks[0] == TextBlocks(m.content)[0];
    }
  }

  lemma {:induction false} PushAllIsTidy(codec: Codec, messages: seq<Message>, more: seq<ChatMessage>)
    requires Tidy(messages) && AllSubstantial(codec, more)
    ensures Tidy(PushAll(codec, messages, more))
    decreases |more|
  {
    hide Tidy, Push, Substantial;
    if more == [] {
    } else {
      PushAllIsTidy(codec, messages, more[..|more| - 1]);
      PushIsTidy(codec, PushAll(codec, messages, more[..|more| - 1]), more[|more| - 1]);
    }
  }

  lemma {:induction false} ResultsAreToolMessages(blocks: seq<Block>)
    ensures forall i | 0 <= i < |Results(blocks)| :: Results(blocks)[i].ToolMessage?
  {
    if blocks == [] {
    } else {
      ResultsAreToolMessages(blocks[..|blocks| - 1]);
    }
  }

  lemma ConvertIsSubstantial(codec: Codec, m: Message)
    ensures AllSubstantial(codec, Convert(codec, m))
    ensures forall i | 0 <= i < |Convert(codec, m)| :: Convert(codec, m)[i].ToolMessage? || Convert(codec, m)[i].Spoken?
  {
    if m.content.Blocks? {
      ResultsAreToolMessages(m.content.blocks);
    }
  }

  /** Whatever the conversation, its normal turns are tidy. */
  lemma {:induction false} NormalTurnsAreTidy(codec: Codec, messages: seq<Message>)
    ensures Tidy(NormalTurns(codec, messages))
  {
    hide CanonicalTurn, Convert;
    if messages == [] {
    } else {
      var front, last := messages[..|messages| - 1], messages[|messages| - 1];
      assert messages == front + [last];
      NormalTurnsAreTidy(codec, front);
      NormalTurnsSnoc(codec, front, last);
      ConvertIsSubstantial(codec, last);
      PushAllIsTidy(codec, NormalTurns(codec, front), Convert(codec, last));
    }
  }

  // ---------- Where empty user turns come from

  predicate Mute(m: ChatMessage) {
    m.Spoken? && m.role == User && TextBlocks(m.content) == []
  }

  ghost predicate NoneMute(messages: seq<ChatMessage>) {
    forall i | 0 <= i < |messages| :: !Mute(messages[i])
  }

  lemma PushEmptyIffMute(codec: Codec, messages: seq<Message>, m: ChatMessage)
    ensures NoEmptyUser(Push(codec, messages, m)) <==> NoEmptyUser(messages) && !Mute(m)
  {
    var after := Push(codec, messages, m);
    if m.ToolMessage? && EndsInResults(messages) {
      assert forall i | 0 <= i < |after| - 1 :: after[i] == messages[i];
      assert !EmptyUser(messages[|messages| - 1]) && !EmptyUser(after[|after| - 1]);
      if NoEmptyUser(after) {
        forall i | 0 <= i < |messages| ensures !EmptyUser(messages[i]) {
          assert i < |messages| - 1 ==> after[i] == messages[i];
        }
      }
    } else if m.ToolMessage? || m.Spoken? {
      var turn := after[|messages|];
      assert after == messages + [turn];
      assert m.Spoken? && m.role == User ==> turn.content.blocks == TextBlocks(m.content);
      assert EmptyUser(turn) <==> Mute(m);
      if NoEmptyUser(after) {
        assert forall i | 0 <= i < |messages| :: after[i] == messages[i];
      }
    }
  }

  lemma {:induction false} PushAllEmptyIffMute(codec: Codec, messages: seq<Message>, more: seq<ChatMessage>)
    ensures NoEmptyUser(PushAll(codec, messages, more)) <==> NoEmptyUser(messages) && NoneMute(more)
    decreases |more|
  {
    hide Push, NoEmptyUser, Mute;
    if more == [] {
    } else {
      var front, last := more[..|more| - 1], more[|more| - 1];
      PushAllEmptyIffMute(codec, messages, front);
      PushEmptyIffMute(codec, PushAll(codec, messages, front), last);
      assert more == front + [last];
      assert NoneMute(more) <==> NoneMute(front) && !Mute(last) by { NoneMuteSnoc(front, last); }
    }
  }

  lemma NoneMuteSnoc(front: seq<ChatMessage>, last: ChatMessage)
    ensures NoneMute(front + [last]) <==> NoneMute(front) && !Mute(last)
  {
    hide Mute;
    var all := front + [last];
    assert all[|front|] == last && forall i | 0 <= i < |front| :: all[i] == front[i];
  }

  lemma {:induction false} NoneMuteResults(blocks: seq<Block>, last: ChatMessage)
    ensures NoneMute(Results(blocks)) && (NoneMute(Results(blocks) + [last]) <==> !Mute(last))
  {
    ResultsAreToolMessages(blocks);
    NoneMuteSnoc(Results(blocks), last);
  }

  lemma ConvertMuteIffToolOnly(codec: Codec, m: Message)
    ensures NoneMute(Convert(codec, m)) <==> !ToolOnlyUser(codec, m)
  {
    match m.content {
      case Plain(_) =>
      case Blocks(blocks) =>
        var texts, uses := Texts(blocks), Uses(codec, blocks);
        var spoken := Spoken(m.role, if texts == [] then Nothing else Parts(texts), uses);
        NoneMuteResults(blocks, spoken);
        assert Results(blocks) + [] == Results(blocks);
    }
  }

  /** An empty user turn appears exactly when a user message has tool calls but no text. */
  lemma {:induction false} EmptyTurnsIffToolOnly(codec: Codec, messages: seq<Message>)
    ensures NoEmptyUser(NormalTurns(codec, messages)) <==> NoToolOnlyUser(codec, messages)
  {
    hide Convert, ToolOnlyUser, NoneMute, EmptyUser;
    if messages == [] {
    } else {
      var front, last := messages[..|messages| - 1], messages[|messages| - 1];
      assert messages == front + [last];
      EmptyTurnsIffToolOnly(codec, front);
      NormalTurnsSnoc(codec, front, last);
      PushAllEmptyIffMute(codec, NormalTurns(codec, front), Convert(codec, last));
      ConvertMuteIffToolOnly(codec, last);
    }
  }

  // ---------- Canonical conversations are fixed

  lemma {:induction false} TextShape(blocks: seq<Block>)
    requires AllText(blocks)
    ensures |Texts(blocks)| == |blocks| && forall i | 0 <= i < |blocks| :: Texts(blocks)[i] == blocks[i].text
    ensures Results(blocks) == []
    ensures forall codec: Codec :: Uses(codec, blocks) == []
  {
    if blocks == [] {
    } else {
      TextShape(blocks[..|blocks| - 1]);
    }
  }

  lemma TextsRebuild(blocks: seq<Block>)
    requires AllText(blocks)
    ensures TextBlocks(Parts(Texts(blocks))) == blocks
  {
    TextShape(blocks);
    forall i | 0 <= i < |blocks| ensures TextBlocks(Parts(Texts(blocks)))[i] == blocks[i] {
      assert blocks[i] == Text(blocks[i].text);
    }
  }

  lemma {:induction false} UseShape(codec: Codec, blocks: seq<Block>)
    requires codec.Valid() && forall i | 0 <= i < |blocks| :: blocks[i].ToolUse?
    ensures UseBlocks(codec, Uses(codec, blocks)) == blocks && Texts(blocks) == [] && Results(blocks) == []
    ensures |Uses(codec, blocks)| == |blocks|
  {
    if blocks == [] {
    } else {
      var front, last := blocks[..|blocks| - 1], blocks[|blocks| - 1];
      UseShape(codec, front);
      assert codec.loads(codec.dumps(last.input)) == Some(last.input) && codec.dumps(last.input) != "";
      assert blocks == front + [last];
    }
  }

  lemma {:induction false} FiltersAppend(codec: Codec, a: seq<Block>, b: seq<Block>)
    ensures Texts(a + b) == Texts(a) + Texts(b)
    ensures Uses(codec, a + b) == Uses(codec, a) + Uses(codec, b)
    ensures Results(a + b) == Results(a) + Results(b)
    decreases |b|
  {
    hide WordsToText;
    if b == [] {
      assert a + b == a;
    } else {
      var front, last := b[..|b| - 1], b[|b| - 1];
      assert (a + b)[..|a + b| - 1] == a + front;
      FiltersAppend(codec, a, front);
      Assoc(Texts(a), Texts(front), if last.Text? then [last.text] else []);
      Assoc(Uses(codec, a), Uses(codec, front), if last.ToolUse? then [ChatCall(last.id, last.name, codec.dumps(last.input))] else []);
      Assoc(Results(a), Results(front), if last.ToolResult? then [ToolMessage(last.id, WordsToText(last.content))] else []);
    }
  }

  /** The results that a run of tool messages becomes. */
  function ToolBlocks(run: seq<ChatMessage>): seq<Block>
    requires forall i | 0 <= i < |run| :: run[i].ToolMessage?
  {
    seq(|run|, i requires 0 <= i < |run| => ToolResult(run[i].id, Items([run[i].text])))
  }

  lemma PushToolOnto(codec: Codec, messages: seq<Message>, blocks: seq<Block>, m: ChatMessage)
    requires m.ToolMessage? && blocks != [] && forall i | 0 <= i < |blocks| :: blocks[i].ToolResult?
    ensures Push(codec, messages + [Message(User, Blocks(blocks))], m)
         == messages + [Message(User, Blocks(blocks + [ToolResult(m.id, Items([m.text]))]))]
  {
    var sofar := messages + [Message(User, Blocks(blocks))];
    assert sofar[..|messages|] == messages;
  }

  /** A run of tool messages after anything else becomes one user turn. */
  lemma {:induction false} PushTools(codec: Codec, messages: seq<Message>, run: seq<ChatMessage>)
    requires !EndsInResults(messages) && run != [] && forall i | 0 <= i < |run| :: run[i].ToolMessage?
    ensures PushAll(codec, messages, run) == messages + [Message(User, Blocks(ToolBlocks(run)))]
    decreases |run|
  {
    var front, last := run[..|run| - 1], run[|run| - 1];
    assert ToolBlocks(run) == ToolBlocks(front) + [ToolResult(last.id, Items([last.text]))];
    if front == [] {
      assert PushAll(codec, messages, front) == messages;
      assert ToolBlocks(run) == [ToolResult(last.id, Items([last.text]))];
    } else {
      PushTools(codec, messages, front);
      hide Push;
      PushToolOnto(codec, messages, ToolBlocks(front), last);
    }
  }

  lemma {:induction false} PlainShape(codec: Codec, blocks: seq<Block>)
    requires PlainResults(blocks)
    ensures Texts(blocks) == [] && Uses(codec, blocks) == []
    ensures |Results(blocks)| == |blocks|
    ensures forall i | 0 <= i < |blocks| :: Results(blocks)[i] == ToolMessage(blocks[i].id, blocks[i].content.texts[0])
  {
    if blocks == [] {
    } else {
      PlainShape(codec, blocks[..|blocks| - 1]);
    }
  }

  lemma PushResults(codec: Codec, messages: seq<Message>, blocks: seq<Block>)
    requires !EndsInResults(messages) && PlainResults(blocks) && blocks != []
    ensures PushAll(codec, messages, Results(blocks)) == messages + [Message(User, Blocks(blocks))]
    ensures Texts(blocks) == [] && Uses(codec, blocks) == []
  {
    hide PushAll, EndsInResults;
    PlainShape(codec, blocks);
    PushTools(codec, messages, Results(blocks));
    forall i | 0 <= i < |blocks| ensures ToolBlocks(Results(blocks))[i] == blocks[i] {
      assert blocks[i].content.texts == [blocks[i].content.texts[0]];
    }
    assert ToolBlocks(Results(blocks)) == blocks;
  }

  lemma PushTexts(codec: Codec, messages: seq<Message>, blocks: seq<Block>)
    requires AllText(blocks) && blocks != []
    ensures PushAll(codec, messages, Convert(codec, Message(User, Blocks(blocks)))) == messages + [Message(User, Blocks(blocks))]
  {
    hide Texts, Uses, Results, PushAll, EndsInResults;
    TextShape(blocks);
    TextsRebuild(blocks);
    var spoken := Spoken(User, Parts(Texts(blocks)), []);
    assert Uses(codec, blocks) == [];
    assert Convert(codec, Message(User, Blocks(blocks))) == [spoken];
    PushAllOne(codec, messages, spoken);
    assert blocks + [] == blocks;
    assert Push(codec, messages, spoken) == messages + [Message(User, Blocks(blocks))];
  }

  /** Pushing a canonical turn's own chat messages gives the turn back. */
  lemma PushCanonicalTurn(codec: Codec, messages: seq<Message>, turn: Message)
    requires codec.Valid() && CanonicalTurn(turn) && !(EndsInResults(messages) && IsResultTurn(turn))
    ensures PushAll(codec, messages, Convert(codec, turn)) == messages + [turn]
  {
    hide Texts, Uses, Results, PushAll, EndsInResults;
    var blocks := turn.content.blocks;
    if turn.role == User {
      if AllText(blocks) {
        PushTexts(codec, messages, blocks);
      } else {
        PushResults(codec, messages, blocks);
        assert Results(blocks) + [] == Results(blocks) && Convert(codec, turn) == Results(blocks);
      }
    } else {
      var n :| TextsThenUses(blocks, n);
      PushAssistant(codec, messages, turn, n);
    }
  }

  lemma AssistantShape(codec: Codec, blocks: seq<Block>, n: nat)
    requires codec.Valid() && TextsThenUses(blocks, n)
    ensures Results(blocks) == []
    ensures TextBlocks(Parts(Texts(blocks))) == blocks[..n]
    ensures UseBlocks(codec, Uses(codec, blocks)) == blocks[n..]
  {
    var texts, uses := blocks[..n], blocks[n..];
    assert blocks == texts + uses;
    FiltersAppend(codec, texts, uses);
    TextShape(texts);
    TextsRebuild(texts);
    UseShape(codec, uses);
    hide Texts, Uses, Results;
    assert Texts(texts) + [] == Texts(texts);
    assert [] + Uses(codec, uses) == Uses(codec, uses);
  }

  lemma PushAssistant(codec: Codec, messages: seq<Message>, turn: Message, n: nat)
    requires codec.Valid() && turn.role == Assistant && turn.content.Blocks? && turn.content.blocks != []
    requires TextsThenUses(turn.content.blocks, n)
    ensures PushAll(codec, messages, Convert(codec, turn)) == messages + [turn]
  {
    hide Texts, Uses, Results, EndsInResults;
    var blocks := turn.content.blocks;
    AssistantShape(codec, blocks, n);
    var texts, uses := Texts(blocks), Uses(codec, blocks);
    assert blocks == blocks[..n] + blocks[n..];
    assert texts != [] || uses != [];
    var spoken := Spoken(Assistant, if texts == [] then Nothing else Parts(texts), uses);
    assert TextBlocks(spoken.content) == TextBlocks(Parts(texts));
    assert Convert(codec, turn) == [] + [spoken];
    PushAllOne(codec, messages, spoken);
  }

  lemma {:induction false} CanonicalIsFixed(codec: Codec, messages: seq<Message>)
    requires codec.Valid() && Canonical(messages)
    ensures NormalTurns(codec, messages) == messages
  {
    hide CanonicalTurn, IsResultTurn;
    if messages == [] {
    } else {
      var front, last := messages[..|messages| - 1], messages[|messages| - 1];
      assert messages == front + [last];
      assert Canonical(front);
      CanonicalIsFixed(codec, front);
      NormalTurnsSnoc(codec, front, last);
      PushCanonicalTurn(codec, front, last);
    }
  }

  lemma TidyHasNoToolOnly(codec: Codec, messages: seq<Message>)
    requires Tidy(messages)
    ensures NoToolOnlyUser(codec, messages)
  {
    forall i | 0 <= i < |messages| ensures !ToolOnlyUser(codec, messages[i]) {
      var m := messages[i];
      assert CanonicalTurn(m) || EmptyUser(m);
      if m.role == User && m.content.blocks != [] {
        if AllText(m.content.blocks) {
          TextShape(m.content.blocks);
        } else {
          PushResults(codec, [], m.content.blocks);
        }
      }
    }
  }

  /** Normalising leaves exactly the canonical conversations as they are. */
  lemma FixedIffCanonical(codec: Codec, messages: seq<Message>)
    requires codec.Valid()
    ensures NormalTurns(codec, messages) == messages <==> Canonical(messages)
  {
    hide CanonicalTurn, NormalTurns, IsResultTurn, ToolOnlyUser, EmptyUser;
    if Canonical(messages) {
      CanonicalIsFixed(codec, messages);
    }
    if NormalTurns(codec, messages) == messages {
      NormalTurnsAreTidy(codec, messages);
      TidyHasNoToolOnly(codec, messages);
      EmptyTurnsIffToolOnly(codec, messages);
    }
  }

  /** Normalising twice is normalising once exactly when no user message has tool calls but no text. */
  lemma IdempotentIffNoToolOnlyUser(codec: Codec, messages: seq<Message>)
    requires codec.Valid()
    ensures NormalTurns(codec, NormalTurns(codec, messages)) == NormalTurns(codec, messages)
       <==> NoToolOnlyUser(codec, messages)
  {
    hide NormalTurns, Tidy, NoEmptyUser, NoToolOnlyUser;
    NormalTurnsAreTidy(codec, messages);
    EmptyTurnsIffToolOnly(codec, messages);
    FixedIffCanonical(codec, NormalTurns(codec, messages));
  }
}
