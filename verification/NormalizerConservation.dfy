/**
 What normalising a conversation keeps, and how tool messages are gathered into turns.
 */
module NormalizerConservation {
  import opened Wrappers
  import opened Normalizer

  // ---------- Conservation of calls, results and words

  datatype Kind = Call | Outcome | Said(role: Role)

  function BlocksOf(m: Message): seq<Block> {
    match m.content case Plain(text) => [Text(text)] case Blocks(blocks) => blocks
  }

  predicate IsKind(kind: Kind, role: Role, block: Block) {
    match kind
    case Call => role == Assistant && block.ToolUse?
    case Outcome => block.ToolResult?
    case Said(speaker) => role == speaker && block.Text?
  }

  /** A tool result, as the one text it amounts to. */
  function Flat(block: Block): Block {
    if block.ToolResult? then ToolResult(block.id, Items([WordsToText(block.content)])) else block
  }

  /** The blocks of one kind, in order. */
  function Select(kind: Kind, role: Role, blocks: seq<Block>): seq<Block> {
    if blocks == [] then []
    else
      var last := blocks[|blocks| - 1];
      Select(kind, role, blocks[..|blocks| - 1]) + (if IsKind(kind, role, last) then [Flat(last)] else [])
  }

  function Gather(kind: Kind, messages: seq<Message>): seq<Block> {
    if messages == [] then []
    else Gather(kind, messages[..|messages| - 1]) + SelectIn(kind, messages[|messages| - 1])
  }

  function SelectIn(kind: Kind, m: Message): seq<Block> {
    Select(kind, m.role, BlocksOf(m))
  }

  /** The turn a chat message would be on its own. */
  function Alone(codec: Codec, m: ChatMessage): Message
    requires m.ToolMessage? || m.Spoken?
  {
    match m
    case ToolMessage(id, text) => Message(User, Blocks([ToolResult(id, Items([text]))]))
    case Spoken(role, content, calls) =>
      Message(role, Blocks(TextBlocks(content) + (if role == Assistant then UseBlocks(codec, calls) else [])))
  }

  function GatherChat(kind: Kind, codec: Codec, messages: seq<ChatMessage>): seq<Block> {
    if messages == [] then []
    else
      var last := messages[|messages| - 1];
      GatherChat(kind, codec, messages[..|messages| - 1])
        + (if last.ToolMessage? || last.Spoken? then SelectIn(kind, Alone(codec, last)) else [])
  }

  lemma {:induction false} SelectAppend(kind: Kind, role: Role, a: seq<Block>, b: seq<Block>)
    ensures Select(kind, role, a + b) == Select(kind, role, a) + Select(kind, role, b)
    decreases |b|
  {
    hide IsKind, Flat;
    if b == [] {
      assert a + b == a;
    } else {
      var front, last := b[..|b| - 1], b[|b| - 1];
      assert (a + b)[..|a + b| - 1] == a + front;
      SelectAppend(kind, role, a, front);
      Assoc(Select(kind, role, a), Select(kind, role, front), if IsKind(kind, role, last) then [Flat(last)] else []);
    }
  }

  lemma SelectOne(kind: Kind, role: Role, block: Block)
    ensures Select(kind, role, [block]) == if IsKind(kind, role, block) then [Flat(block)] else []
  {
    assert [block][..0] == [];
  }

  lemma GatherSnoc(kind: Kind, messages: seq<Message>, m: Message)
    ensures Gather(kind, messages + [m]) == Gather(kind, messages) + SelectIn(kind, m)
  {
    assert (messages + [m])[..|messages|] == messages;
  }

  lemma {:induction false} GatherChatAppend(kind: Kind, codec: Codec, a: seq<ChatMessage>, b: seq<ChatMessage>)
    ensures GatherChat(kind, codec, a + b) == GatherChat(kind, codec, a) + GatherChat(kind, codec, b)
    decreases |b|
  {
    hide SelectIn, Alone;
    if b == [] {
      assert a + b == a;
    } else {
      var front, last := b[..|b| - 1], b[|b| - 1];
      assert (a + b)[..|a + b| - 1] == a + front;
      GatherChatAppend(kind, codec, a, front);
      Assoc(GatherChat(kind, codec, a), GatherChat(kind, codec, front),
            if last.ToolMessage? || last.Spoken? then SelectIn(kind, Alone(codec, last)) else []);
    }
  }

  lemma PushGathers(kind: Kind, codec: Codec, messages: seq<Message>, m: ChatMessage)
    requires m.ToolMessage? || m.Spoken?
    ensures Gather(kind, Push(codec, messages, m)) == Gather(kind, messages) + SelectIn(kind, Alone(codec, m))
  {
    hide IsKind, Flat, Select, Gather;
    if m.ToolMessage? && EndsInResults(messages) {
      var front, previous := messages[..|messages| - 1], messages[|messages| - 1];
      var block := ToolResult(m.id, Items([m.text]));
      var grown := Message(User, Blocks(previous.content.blocks + [block]));
      assert messages == front + [previous];
      GatherSnoc(kind, front, previous);
      GatherSnoc(kind, front, grown);
      SelectAppend(kind, User, previous.content.blocks, [block]);
      Assoc(Gather(kind, front), SelectIn(kind, previous), Select(kind, User, [block]));
    } else {
      GatherSnoc(kind, messages, Alone(codec, m));
    }
  }

  lemma {:induction false} PushAllGathers(kind: Kind, codec: Codec, messages: seq<Message>, more: seq<ChatMessage>)
    ensures Gather(kind, PushAll(codec, messages, more)) == Gather(kind, messages) + GatherChat(kind, codec, more)
    decreases |more|
  {
    hide SelectIn, Alone, Gather;
    if more == [] {
    } else {
      var front, last := more[..|more| - 1], more[|more| - 1];
      PushAllGathers(kind, codec, messages, front);
      if last.ToolMessage? || last.Spoken? {
        PushGathers(kind, codec, PushAll(codec, messages, front), last);
        hide Push;
        Assoc(Gather(kind, messages), GatherChat(kind, codec, front), SelectIn(kind, Alone(codec, last)));
      }
    }
  }

  // ---------- What converting one message keeps

  lemma OutcomeIsFlat(kind: Kind, codec: Codec, block: Block)
    requires block.ToolResult?
    ensures GatherChat(kind, codec, [ToolMessage(block.id, WordsToText(block.content))]) == if kind == Outcome then [Flat(block)] else []
  {
    hide GatherChat, Select;
    var text := WordsToText(block.content);
    GatherChatOne(kind, codec, ToolMessage(block.id, text));
    SelectOne(kind, User, ToolResult(block.id, Items([text])));
    assert WordsToText(Items([text])) == text;
  }

  lemma {:induction false} SelectResults(kind: Kind, codec: Codec, role: Role, blocks: seq<Block>)
    ensures GatherChat(kind, codec, Results(blocks)) == if kind == Outcome then Select(kind, role, blocks) else []
  {
    hide GatherChat, Flat, WordsToText;
    if blocks == [] {
      GatherChatNone(kind, codec);
    } else {
      var front, last := blocks[..|blocks| - 1], blocks[|blocks| - 1];
      SelectResults(kind, codec, role, front);
      if last.ToolResult? {
        GatherChatAppend(kind, codec, Results(front), [ToolMessage(last.id, WordsToText(last.content))]);
        OutcomeIsFlat(kind, codec, last);
      } else {
        assert Results(blocks) == Results(front);
      }
    }
  }

  lemma GatherChatNone(kind: Kind, codec: Codec)
    ensures GatherChat(kind, codec, []) == []
  {
  }

  lemma GatherChatOne(kind: Kind, codec: Codec, m: ChatMessage)
    requires m.ToolMessage? || m.Spoken?
    ensures GatherChat(kind, codec, [m]) == SelectIn(kind, Alone(codec, m))
  {
    hide SelectIn, Alone;
    assert [m][..0] == [];
  }

  lemma TextComesBack(texts: seq<string>, block: Block)
    requires block.Text?
    ensures TextBlocks(Parts(texts + [block.text])) == TextBlocks(Parts(texts)) + [block]
  {
  }

  lemma {:induction false} SelectTexts(kind: Kind, role: Role, blocks: seq<Block>)
    ensures Select(kind, role, TextBlocks(Parts(Texts(blocks)))) == if kind == Said(role) then Select(kind, role, blocks) else []
  {
    if blocks == [] {
      assert TextBlocks(Parts([])) == [];
    } else {
      hide TextBlocks;
      var front, last := blocks[..|blocks| - 1], blocks[|blocks| - 1];
      SelectTexts(kind, role, front);
      if last.Text? {
        TextComesBack(Texts(front), last);
        var before := TextBlocks(Parts(Texts(front)));
        SelectAppend(kind, role, before, [last]);
        SelectOne(kind, role, last);
      } else {
        assert Texts(blocks) == Texts(front);
      }
    }
  }

  lemma UseComesBack(codec: Codec, calls: seq<ChatCall>, block: Block)
    requires codec.Valid() && block.ToolUse?
    ensures UseBlocks(codec, calls + [ChatCall(block.id, block.name, codec.dumps(block.input))]) == UseBlocks(codec, calls) + [block]
  {
    assert codec.loads(codec.dumps(block.input)) == Some(block.input) && codec.dumps(block.input) != "";
  }

  lemma {:induction false} SelectUses(kind: Kind, codec: Codec, blocks: seq<Block>)
    requires codec.Valid()
    ensures Select(kind, Assistant, UseBlocks(codec, Uses(codec, blocks))) == if kind == Call then Select(kind, Assistant, blocks) else []
  {
    hide UseBlocks;
    if blocks == [] {
      assert UseBlocks(codec, []) == [] by { NoUses(codec); }
    } else {
      var front, last := blocks[..|blocks| - 1], blocks[|blocks| - 1];
      SelectUses(kind, codec, front);
      if last.ToolUse? {
        UseComesBack(codec, Uses(codec, front), last);
        var before := UseBlocks(codec, Uses(codec, front));
        SelectAppend(kind, Assistant, before, [last]);
        SelectOne(kind, Assistant, last);
      } else {
        assert Uses(codec, blocks) == Uses(codec, front);
      }
    }
  }

  lemma NoUses(codec: Codec)
    ensures UseBlocks(codec, []) == []
  {
  }

  lemma {:induction false} SelectNothing(kind: Kind, role: Role, blocks: seq<Block>)
    requires (kind == Call && role == User) || kind == Said(if role == User then Assistant else User)
    ensures Select(kind, role, blocks) == []
  {
    if blocks == [] {
    } else {
      SelectNothing(kind, role, blocks[..|blocks| - 1]);
    }
  }

  lemma SpokenGathers(kind: Kind, codec: Codec, role: Role, blocks: seq<Block>)
    requires codec.Valid()
    ensures var texts, uses := Texts(blocks), Uses(codec, blocks);
            var spoken := Spoken(role, if texts == [] then Nothing else Parts(texts), uses);
            SelectIn(kind, Alone(codec, spoken)) == if kind == Outcome then [] else Select(kind, role, blocks)
  {
    hide Select, Texts, Uses, UseBlocks;
    var texts, uses := Texts(blocks), Uses(codec, blocks);
    var words := TextBlocks(Parts(texts));
    SelectTexts(kind, role, blocks);
    SelectUses(kind, codec, blocks);
    var calls := if role == Assistant then UseBlocks(codec, uses) else [];
    SelectAppend(kind, role, words, calls);
    SelectEmpty(kind, role);
    if kind != Outcome && kind != Said(role) && !(kind == Call && role == Assistant) {
      SelectNothing(kind, role, blocks);
    }
  }

  lemma SelectEmpty(kind: Kind, role: Role)
    ensures Select(kind, role, []) == []
  {
  }

  lemma ConvertGathers(kind: Kind, codec: Codec, m: Message)
    requires codec.Valid()
    ensures GatherChat(kind, codec, Convert(codec, m)) == SelectIn(kind, m)
  {
    hide Select, GatherChat, Texts, Uses, Results;
    match m.content {
      case Plain(text) =>
        GatherChatOne(kind, codec, Spoken(m.role, Line(text), []));
        assert TextBlocks(Line(text)) + [] == [Text(text)];
        assert TextBlocks(Line(text)) + UseBlocks(codec, []) == [Text(text)];
      case Blocks(blocks) =>
        var texts, uses := Texts(blocks), Uses(codec, blocks);
        var spoken := Spoken(m.role, if texts == [] then Nothing else Parts(texts), uses);
        SelectResults(kind, codec, m.role, blocks);
        SpokenGathers(kind, codec, m.role, blocks);
        if texts != [] || uses != [] {
          GatherChatAppend(kind, codec, Results(blocks), [spoken]);
          GatherChatOne(kind, codec, spoken);
        } else {
          SelectEmpty(kind, m.role);
          assert UseBlocks(codec, []) == [] && BlocksOf(Alone(codec, spoken)) == [];
          assert Results(blocks) + [] == Results(blocks);
        }
    }
  }

  lemma {:induction false} ConvertAllGathers(kind: Kind, codec: Codec, messages: seq<Message>)
    requires codec.Valid()
    ensures GatherChat(kind, codec, ConvertAll(codec, messages)) == Gather(kind, messages)
  {
    hide Convert, SelectIn;
    if messages == [] {
    } else {
      var front, last := messages[..|messages| - 1], messages[|messages| - 1];
      ConvertAllGathers(kind, codec, front);
      ConvertGathers(kind, codec, last);
      GatherChatAppend(kind, codec, ConvertAll(codec, front), Convert(codec, last));
    }
  }

  /**
   Normalising keeps, in order, every call of the assistant, every tool result by its id and text, and every
   text of either speaker.
   */
  lemma NormalTurnsConserve(kind: Kind, codec: Codec, messages: seq<Message>)
    requires codec.Valid()
    ensures Gather(kind, NormalTurns(codec, messages)) == Gather(kind, messages)
  {
    hide PushAll, GatherChat, ConvertAll;
    ConvertAllGathers(kind, codec, messages);
    PushAllGathers(kind, codec, [], ConvertAll(codec, messages));
    assert Gather(kind, []) == [];
  }

  // ---------- Runs of tool messages

  function Heard(messages: seq<ChatMessage>): seq<ChatMessage> {
    if messages == [] then []
    else
      var last := messages[|messages| - 1];
      Heard(messages[..|messages| - 1]) + (if last.ToolMessage? || last.Spoken? then [last] else [])
  }

  ghost predicate ToolRun(run: seq<ChatMessage>) {
    run != [] && forall i | 0 <= i < |run| :: run[i].ToolMessage?
  }

  ghost predicate SpokenRun(run: seq<ChatMessage>) {
    |run| == 1 && run[0].Spoken?
  }

  /** Runs of tool messages, as long as they can be, between single spoken messages. */
  ghost predicate MaximalRuns(runs: seq<seq<ChatMessage>>) {
    && (forall i | 0 <= i < |runs| :: ToolRun(runs[i]) || SpokenRun(runs[i]))
    && forall i | 0 < i < |runs| :: !(ToolRun(runs[i - 1]) && ToolRun(runs[i]))
  }

  /** The one turn of a run. */
  ghost function TurnOf(codec: Codec, run: seq<ChatMessage>): Message
    requires ToolRun(run) || SpokenRun(run)
  {
    if ToolRun(run) then Message(User, Blocks(ToolBlocks(run))) else Alone(codec, run[0])
  }

  lemma {:induction false} PushAllHears(codec: Codec, messages: seq<Message>, more: seq<ChatMessage>)
    ensures PushAll(codec, messages, more) == PushAll(codec, messages, Heard(more))
    decreases |more|
  {
    if more == [] {
    } else {
      var front, last := more[..|more| - 1], more[|more| - 1];
      PushAllHears(codec, messages, front);
      if last.ToolMessage? || last.Spoken? {
        PushAllAppend(codec, messages, Heard(front), [last]);
        PushAllOne(codec, PushAll(codec, messages, Heard(front)), last);
      } else {
        assert Heard(more) == Heard(front);
      }
    }
  }

  lemma PushRun(codec: Codec, messages: seq<Message>, run: seq<ChatMessage>)
    requires (ToolRun(run) && !EndsInResults(messages)) || SpokenRun(run)
    ensures PushAll(codec, messages, run) == messages + [TurnOf(codec, run)]
    ensures IsResultTurn(TurnOf(codec, run)) ==> ToolRun(run)
  {
    hide EndsInResults, TextBlocks;
    if ToolRun(run) {
      hide PushAll, Push;
      PushTools(codec, messages, run);
    } else {
      assert run == [run[0]];
      PushAllOne(codec, messages, run[0]);
      SpokenIsNoResultTurn(codec, [], run[0]);
      SpokenTurnIsNoResult(codec, run[0]);
    }
  }

  lemma SpokenTurnIsNoResult(codec: Codec, m: ChatMessage)
    requires m.Spoken?
    ensures !IsResultTurn(Alone(codec, m))
  {
    var turn := Alone(codec, m);
    if m.role == User && turn.content.blocks != [] {
      assert turn.content.blocks[0] == TextBlocks(m.content)[0];
    }
  }

  lemma MaximalFront(front: seq<seq<ChatMessage>>, last: seq<ChatMessage>)
    requires MaximalRuns(front + [last])
    ensures MaximalRuns(front) && (ToolRun(last) || SpokenRun(last))
    ensures ToolRun(last) && front != [] ==> SpokenRun(front[|front| - 1]) && !ToolRun(front[|front| - 1])
  {
    hide ToolRun, SpokenRun;
    var runs := front + [last];
    assert runs[|front|] == last && forall i | 0 <= i < |front| :: runs[i] == front[i];
  }

  lemma ConcatNone()
    ensures Concat<ChatMessage>([]) == []
  {
  }

  /** Turn i is the turn of run i. */
  ghost predicate OneTurnEach(codec: Codec, runs: seq<seq<ChatMessage>>, turns: seq<Message>) {
    && |turns| == |runs|
    && forall i | 0 <= i < |runs| :: (ToolRun(runs[i]) || SpokenRun(runs[i])) && turns[i] == TurnOf(codec, runs[i])
  }

  lemma PushLastRun(codec: Codec, front: seq<seq<ChatMessage>>, last: seq<ChatMessage>, turns: seq<Message>)
    requires MaximalRuns(front + [last]) && OneTurnEach(codec, front, turns)
    ensures OneTurnEach(codec, front + [last], PushAll(codec, turns, last))
  {
    hide ToolRun, SpokenRun, TurnOf, IsResultTurn, PushAll, MaximalRuns;
    MaximalFront(front, last);
    if ToolRun(last) && EndsInResults(turns) {
      ResultTurnIsToolRun(codec, front[|front| - 1]);
      assert false;
    }
    PushRun(codec, turns, last);
  }

  lemma {:induction false} PushRuns(codec: Codec, runs: seq<seq<ChatMessage>>)
    requires MaximalRuns(runs)
    ensures OneTurnEach(codec, runs, PushAll(codec, [], Concat(runs)))
    decreases |runs|
  {
    hide MaximalRuns, Concat, Push;
    if runs == [] {
      ConcatNone();
    } else {
      var front, last := runs[..|runs| - 1], runs[|runs| - 1];
      assert runs == front + [last];
      hide OneTurnEach, PushAll;
      MaximalFront(front, last);
      PushRuns(codec, front);
      ConcatAppend(front, [last]);
      ConcatOne(last);
      PushAllAppend(codec, [], Concat(front), last);
      PushLastRun(codec, front, last, PushAll(codec, [], Concat(front)));
    }
  }

  lemma ResultTurnIsToolRun(codec: Codec, run: seq<ChatMessage>)
    requires (ToolRun(run) || SpokenRun(run)) && IsResultTurn(TurnOf(codec, run))
    ensures ToolRun(run)
  {
    if !ToolRun(run) {
      SpokenTurnIsNoResult(codec, run[0]);
    }
  }

  /** However a chat is cut into maximal runs, each run becomes exactly one turn. */
  lemma EachRunIsOneTurn(codec: Codec, chat: seq<ChatMessage>, runs: seq<seq<ChatMessage>>)
    requires MaximalRuns(runs) && Concat(runs) == Heard(chat)
    ensures OneTurnEach(codec, runs, PushAll(codec, [], chat))
  {
    hide OneTurnEach, PushAll, MaximalRuns, Heard;
    PushAllHears(codec, [], chat);
    PushRuns(codec, runs);
  }

  /** Tool and spoken messages can be cut so. */
  lemma {:induction false} RunsExist(messages: seq<ChatMessage>) returns (runs: seq<seq<ChatMessage>>)
    requires forall i | 0 <= i < |messages| :: messages[i].ToolMessage? || messages[i].Spoken?
    ensures MaximalRuns(runs) && Concat(runs) == messages
    decreases |messages|
  {
    runs := [];
    if messages == [] {
    } else {
      var front, last := messages[..|messages| - 1], messages[|messages| - 1];
      var earlier := RunsExist(front);
      assert messages == front + [last];
      if last.ToolMessage? && earlier != [] && ToolRun(earlier[|earlier| - 1]) {
        var before, open := earlier[..|earlier| - 1], earlier[|earlier| - 1];
        runs := before + [open + [last]];
        assert earlier == before + [open];
        ConcatAppend(before, [open]);
        ConcatAppend(before, [open + [last]]);
        ConcatOne(open);
        ConcatOne(open + [last]);
        Assoc(Concat(before), open, [last]);
        ExtendRun(before, open, last);
      } else {
        runs := earlier + [[last]];
        ConcatAppend(earlier, [[last]]);
        ConcatOne([last]);
        AddRun(earlier, last);
      }
    }
  }

  lemma {:induction false} HeardIsHeard(messages: seq<ChatMessage>)
    ensures forall i | 0 <= i < |Heard(messages)| :: Heard(messages)[i].ToolMessage? || Heard(messages)[i].Spoken?
  {
    if messages == [] {
    } else {
      HeardIsHeard(messages[..|messages| - 1]);
    }
  }

  /** Every chat can be cut into maximal runs, and then each run is exactly one turn. */
  lemma EveryChatSplitsIntoTurns(codec: Codec, chat: seq<ChatMessage>) returns (runs: seq<seq<ChatMessage>>)
    ensures MaximalRuns(runs) && Concat(runs) == Heard(chat)
    ensures OneTurnEach(codec, runs, PushAll(codec, [], chat))
  {
    hide MaximalRuns, OneTurnEach, PushAll, Heard;
    HeardIsHeard(chat);
    runs := RunsExist(Heard(chat));
    EachRunIsOneTurn(codec, chat, runs);
  }

  lemma ExtendRun(before: seq<seq<ChatMessage>>, run: seq<ChatMessage>, last: ChatMessage)
    requires MaximalRuns(before + [run]) && ToolRun(run) && last.ToolMessage?
    ensures MaximalRuns(before + [run + [last]])
  {
    var earlier, runs := before + [run], before + [run + [last]];
    assert ToolRun(run + [last]);
    hide ToolRun, SpokenRun;
    assert forall i | 0 <= i < |before| :: runs[i] == earlier[i];
    assert earlier[|before|] == run && runs[|before|] == run + [last];
  }

  lemma AddRun(earlier: seq<seq<ChatMessage>>, last: ChatMessage)
    requires MaximalRuns(earlier) && (last.ToolMessage? || last.Spoken?)
    requires last.ToolMessage? ==> earlier == [] || !ToolRun(earlier[|earlier| - 1])
    ensures MaximalRuns(earlier + [[last]])
  {
    var runs := earlier + [[last]];
    assert [last][0] == last && (ToolRun([last]) <==> last.ToolMessage?);
    assert SpokenRun([last]) <==> last.Spoken?;
    hide ToolRun, SpokenRun;
    assert forall i | 0 <= i < |earlier| :: runs[i] == earlier[i];
  }
}
