/**
 When an advance of the agent loop succeeds, what it asks of the model, and the turns it adds.
 */
module AgentTurns {
  import opened Wrappers
  import opened Conversation
  import opened Context
  import opened AgentLoop

  /** The model is asked for as much output as the configuration, the budget and the remaining tokens allow, over the
      conversation compacted to what is left. */
  lemma PlanAsksForTheMost(cfg: Config, s: Session)
    ensures var left := s.budget.maxTotal - s.usage.input - s.usage.output;
            var context := Compact(cfg.compactor, s.turns, Min(s.budget.maxContext, left - 1));
            && (MakePlan(cfg, s) == Err(BudgetExhausted) <==> left <= 1)
            && (MakePlan(cfg, s) == Err(ContextTooLarge) <==> left > 1 && context.None?)
            && (left > 1 && context.Some? && MakePlan(cfg, s).Ok? ==>
                  var plan := MakePlan(cfg, s).value;
                  && plan.turns == context.value.turns && plan.estimate == context.value.estimate
                  && plan.outputLimit <= cfg.maxOutput && plan.outputLimit <= s.budget.maxOutput
                  && plan.estimate + plan.outputLimit <= left
                  && (plan.outputLimit == cfg.maxOutput || plan.outputLimit == s.budget.maxOutput
                      || plan.estimate + plan.outputLimit == left))
  {
    hide Compact;
  }

  // ---------- Calls

  lemma {:induction false} CallsAppend(a: seq<Block>, b: seq<Block>)
    ensures Calls(a + b) == Calls(a) + Calls(b)
  {
    if a == [] {
      assert a + b == b;
    } else {
      assert (a + b)[1..] == a[1..] + b;
      CallsAppend(a[1..], b);
      Assoc(if a[0].ToolCall? then [a[0]] else [], Calls(a[1..]), Calls(b));
    }
  }

  /** The calls of a reply are its call blocks, in order, and nothing else. */
  lemma CallsAreTheCallBlocks(before: seq<Block>, block: Block, later: seq<Block>)
    ensures Calls(before + [block] + later) == Calls(before) + (if block.ToolCall? then [block] else []) + Calls(later)
    ensures Calls([]) == []
  {
    CallsAppend(before + [block], later);
    CallsAppend(before, [block]);
    assert [block][1..] == [];
  }

  ghost predicate CallsOnly(blocks: seq<Block>, id: string) {
    exists i | 0 <= i < |blocks| :: blocks[i].ToolCall? && blocks[i].id == id
  }

  predicate HasCalls(blocks: seq<Block>) {
    exists i | 0 <= i < |blocks| :: blocks[i].ToolCall?
  }

  ghost predicate Answers(blocks: seq<Block>, id: string) {
    exists i | 0 <= i < |blocks| :: blocks[i].ToolResult? && blocks[i].id == id
  }

  lemma {:induction false} CalledIds(blocks: seq<Block>, id: string)
    ensures id in Ids(Calls(blocks)) <==> CallsOnly(blocks, id)
  {
    if blocks == [] {
    } else {
      var rest := blocks[1..];
      CalledIds(rest, id);
      assert blocks == [blocks[0]] + rest;
      var head := if blocks[0].ToolCall? then [blocks[0]] else [];
      assert Calls(blocks) == head + Calls(rest);
      IdsOfTwo(head, Calls(rest), id);
      CallsOfTwo(blocks[0], rest, id);
    }
  }

  lemma IdsOfTwo(a: seq<Block>, b: seq<Block>, id: string)
    ensures id in Ids(a + b) <==> id in Ids(a) || id in Ids(b)
  {
    var all := a + b;
    if id in Ids(a) {
      var i :| 0 <= i < |a| && (a[i].ToolCall? || a[i].ToolResult?) && a[i].id == id;
      assert all[i] == a[i];
    }
    if id in Ids(b) {
      var i :| 0 <= i < |b| && (b[i].ToolCall? || b[i].ToolResult?) && b[i].id == id;
      assert all[|a| + i] == b[i];
    }
  }

  lemma CallsOfTwo(first: Block, rest: seq<Block>, id: string)
    ensures CallsOnly([first] + rest, id) <==> (first.ToolCall? && first.id == id) || CallsOnly(rest, id)
  {
    var all := [first] + rest;
    assert all[0] == first && forall i | 0 <= i < |rest| :: all[i + 1] == rest[i];
  }

  // ---------- When an advance succeeds

  /** The last turn is the assistant's and has calls, and the results answer each of them once and nothing else. */
  ghost predicate AnswersTheCalls(s: Session, results: seq<Block>) {
    && s.turns != [] && s.turns[|s.turns| - 1].role == Assistant
    && HasCalls(s.turns[|s.turns| - 1].content)
    && (forall id :: Answers(results, id) <==> CallsOnly(s.turns[|s.turns| - 1].content, id))
    && forall i, j | 0 <= i < j < |results| :: results[i].ToolResult? && results[j].ToolResult? ==> results[i].id != results[j].id
  }

  /** What a caller may do next in a session. */
  ghost predicate MayAdvance(cfg: Config, s: Session, advance: Advance) {
    && |s.turns| + 2 <= cfg.maxTurns
    && match advance
       case Start(content) =>
         s.active && content != [] && forall i | 0 <= i < |content| :: content[i].Text? || content[i].Image?
       case Resume(results) => AnswersTheCalls(s, results)
  }

  lemma AnsweredIds(results: seq<Block>, id: string)
    ensures (forall i | 0 <= i < |results| :: results[i].ToolResult?) ==> (id in Ids(results) <==> Answers(results, id))
  {
  }

  lemma {:induction false} CallsIff(blocks: seq<Block>)
    ensures Calls(blocks) != [] <==> HasCalls(blocks)
  {
    if blocks == [] {
    } else {
      CallsIff(blocks[1..]);
      assert forall i | 0 < i < |blocks| :: blocks[i] == blocks[1..][i - 1];
      assert forall i | 0 <= i < |blocks| - 1 :: blocks[1..][i] == blocks[i + 1];
    }
  }

  lemma PendingIff(s: Session)
    ensures PendingCalls(s) != [] <==>
              s.turns != [] && s.turns[|s.turns| - 1].role == Assistant && HasCalls(s.turns[|s.turns| - 1].content)
  {
    if s.turns != [] && s.turns[|s.turns| - 1].role == Assistant {
      CallsIff(s.turns[|s.turns| - 1].content);
    }
  }

  lemma ResumeIff(cfg: Config, s: Session, results: seq<Block>)
    requires forall i | 0 <= i < |results| :: results[i].ToolResult?
    ensures Refusal(cfg, s, Resume(results)).None? <==> MayAdvance(cfg, s, Resume(results))
  {
    PendingIff(s);
    if PendingCalls(s) != [] {
      var content := s.turns[|s.turns| - 1].content;
      forall id ensures (id in Ids(results) <==> Answers(results, id)) && (id in Ids(Calls(content)) <==> CallsOnly(content, id)) {
        AnsweredIds(results, id);
        CalledIds(content, id);
      }
      hide Ids, Answers, CallsOnly, Calls;
      assert Ids(results) == Ids(Calls(content)) <==> forall id :: Answers(results, id) <==> CallsOnly(content, id);
    }
  }

  /** An advance passes the checks exactly when the caller may make it. */
  lemma AcceptedIffAllowed(cfg: Config, s: Session, advance: Advance, reply: Reply)
    ensures WellTyped(advance, reply) ==> (Refusal(cfg, s, advance).None? <==> MayAdvance(cfg, s, advance))
  {
    if WellTyped(advance, reply) {
      match advance {
        case Start(content) =>
        case Resume(results) => ResumeIff(cfg, s, results);
      }
    }
  }

  /** The usage a reply reports is within the context budget, the output asked for, and what is left in all. */
  ghost predicate Within(s: Session, usage: TokenUsage, limit: int) {
    && usage.input <= s.budget.maxContext && usage.output <= limit
    && s.usage.input + s.usage.output + usage.input + usage.output <= s.budget.maxTotal
  }

  /** The session with its new first turn, as the model request sees it. */
  function Opened(s: Session, advance: Advance, draws: Draws): Session {
    var sequence := if s.turns == [] then 0 else s.turns[|s.turns| - 1].sequence + 1;
    var turn := match advance
      case Start(content) => Turn(draws.turn, s.id, draws.turnCorrelation, sequence, User, content, draws.turnAt)
      case Resume(results) => Turn(draws.turn, s.id, draws.turnCorrelation, sequence, Tool, results, draws.turnAt);
    s.(revision := s.revision + 1, turns := s.turns + [turn], updatedAt := draws.appendedAt)
  }

  /** The same with the assistant's turn after it, numbered next. */
  function Closed(s: Session, advance: Advance, blocks: seq<Block>, usage: TokenUsage, draws: Draws): Session {
    var begun := Opened(s, advance, draws);
    var sequence := begun.turns[|s.turns|].sequence + 1;
    begun.(revision := s.revision + 2,
            usage := TokenUsage(s.usage.input + usage.input, s.usage.output + usage.output),
            turns := begun.turns + [Turn(draws.assistant, s.id, draws.correlation, sequence, Assistant, blocks, draws.assistantAt)],
            updatedAt := draws.finishedAt)
  }

  lemma FirstTurnOpens(cfg: Config, s: Session, advance: Advance, reply: Reply, draws: Draws)
    requires cfg.Valid() && ValidSession(s) && WellTyped(advance, reply) && FreshDraws(s, draws) && Refusal(cfg, s, advance).None?
    ensures var begun := Opened(s, advance, draws);
            && Append(s, FirstTurn(s, advance, draws), cfg.maxTurns, TokenUsage(0, 0), draws.appendedAt) == Ok(begun)
            && ValidSession(begun) && |begun.turns| < cfg.maxTurns
            && forall i | 0 <= i < |begun.turns| :: begun.turns[i].id != draws.assistant
  {
    FirstAppendIsValid(cfg, s, advance, reply, draws);
    hide ValidSession, Append, Refusal, ValidTurn;
  }

  /**
   An advance of a valid session succeeds exactly when the caller may make it, the request can be planned, and the model
   answers within its limits; the session then has the caller's turn and the assistant's after it, numbered in succession,
   and the reported usage, and the reply's calls are pending.
   */
  lemma AdvanceSucceedsIff(cfg: Config, s: Session, advance: Advance, reply: Reply, draws: Draws)
    requires cfg.Valid() && ValidSession(s) && WellTyped(advance, reply) && FreshDraws(s, draws)
    ensures var plan := MakePlan(cfg, Opened(s, advance, draws));
            var result := Advanced(cfg, s, advance, reply, draws);
            && (result.Ok? <==> MayAdvance(cfg, s, advance) && plan.Ok? && reply.Output? && Within(s, reply.usage, plan.value.outputLimit))
            && (result.Ok? ==>
                  result.value == Finished(Closed(s, advance, reply.blocks, reply.usage, draws), Calls(reply.blocks)))
  {
    AcceptedIffAllowed(cfg, s, advance, reply);
    if Refusal(cfg, s, advance).None? {
      FirstTurnOpens(cfg, s, advance, reply, draws);
      var begun := Opened(s, advance, draws);
      InferIsValid(cfg, begun, reply, draws);
      hide MayAdvance, Refusal, ValidSession, ValidTurn, FirstTurn, MakePlan, Calls, Append, Within, FreshDraws, WellTyped;
      InferSucceedsIff(cfg, begun, reply, draws);
      hide Infer, Opened, Closed;
      if reply.Output? {
        ClosesTheOpened(s, advance, reply, draws);
      }
    }
  }

  lemma ClosesTheOpened(s: Session, advance: Advance, reply: Reply, draws: Draws)
    requires reply.Output?
    ensures var begun := Opened(s, advance, draws);
            var assistant := Turn(draws.assistant, begun.id, draws.correlation, NextSequence(begun), Assistant, reply.blocks, draws.assistantAt);
            begun.(revision := begun.revision + 1, usage := begun.usage.Plus(reply.usage),
                   turns := begun.turns + [assistant], updatedAt := draws.finishedAt)
            == Closed(s, advance, reply.blocks, reply.usage, draws)
    ensures Opened(s, advance, draws).budget == s.budget && Opened(s, advance, draws).usage == s.usage
  {
  }

  lemma InferSucceedsIff(cfg: Config, s: Session, reply: Reply, draws: Draws)
    requires cfg.Valid() && ValidSession(s) && s.updatedAt <= draws.finishedAt && |s.turns| < cfg.maxTurns
    requires reply.Output? ==> 1 <= |reply.blocks| <= MAX_BLOCKS
                               && forall i | 0 <= i < |reply.blocks| :: !reply.blocks[i].ToolResult?
    requires forall i | 0 <= i < |s.turns| :: s.turns[i].id != draws.assistant
    ensures Infer(cfg, s, reply, draws).Ok? <==>
              MakePlan(cfg, s).Ok? && reply.Output? && Within(s, reply.usage, MakePlan(cfg, s).value.outputLimit)
  {
    if MakePlan(cfg, s).Ok? && reply.Output? {
      var limit := MakePlan(cfg, s).value.outputLimit;
      var assistant := Turn(draws.assistant, s.id, draws.correlation, NextSequence(s), Assistant, reply.blocks, draws.assistantAt);
      hide MakePlan, ValidTurn;
      if Within(s, reply.usage, limit) {
        AssistantAppends(s, assistant, reply.usage, draws.finishedAt, cfg.maxTurns);
      }
      hide ValidSession, Append;
    }
  }

  lemma AssistantAppends(s: Session, turn: Turn, usage: TokenUsage, now: int, maxTurns: nat)
    requires ValidSession(s) && turn.role == Assistant && turn.session == s.id && turn.sequence == NextSequence(s)
    requires 1 <= |turn.content| <= MAX_BLOCKS && forall i | 0 <= i < |turn.content| :: !turn.content[i].ToolResult?
    requires |s.turns| < maxTurns <= MAX_TURNS && s.updatedAt <= now && usage.Total() <= Left(s)
    requires forall i | 0 <= i < |s.turns| :: s.turns[i].id != turn.id
    ensures Append(s, turn, maxTurns, usage, now).Ok?
  {
    AppendIsValid(s, turn, usage, now);
  }

  /** Each refusal names something that is wrong. */
  lemma RefusalsAreTrue(cfg: Config, s: Session, advance: Advance)
    ensures match Refusal(cfg, s, advance)
            case Some(NotActive) => advance.Start? && !s.active
            case Some(EmptyContent) => advance.Start? && advance.content == []
            case Some(InjectedTools) =>
              advance.Start? && exists i | 0 <= i < |advance.content| :: advance.content[i].ToolCall? || advance.content[i].ToolResult?
            case Some(TurnLimit) => |s.turns| + 2 > cfg.maxTurns
            case Some(NothingPending) => advance.Resume? && PendingCalls(s) == []
            case Some(WrongResults) =>
              advance.Resume? && ((forall i | 0 <= i < |advance.results| :: advance.results[i].ToolResult?) ==> !AnswersTheCalls(s, advance.results))
            case Some(_) => false
            case None => true
  {
    if advance.Resume? && Refusal(cfg, s, advance) == Some(WrongResults) && AnswersTheCalls(s, advance.results) {
      ResultsAnswer(s, advance.results);
    }
  }

  lemma ResultsAnswer(s: Session, results: seq<Block>)
    ensures AnswersTheCalls(s, results) && (forall i | 0 <= i < |results| :: results[i].ToolResult?) ==>
              Distinct(results) && Ids(results) == Ids(PendingCalls(s))
  {
    if AnswersTheCalls(s, results) && forall i | 0 <= i < |results| :: results[i].ToolResult? {
      var content := s.turns[|s.turns| - 1].content;
      forall id ensures id in Ids(results) <==> id in Ids(Calls(content)) {
        AnsweredIds(results, id);
        CalledIds(content, id);
      }
    }
  }

  /** A reply over a limit is told which; a reply is refused for no other reason. */
  lemma UsageErrorsAreTrue(usage: TokenUsage, s: Session, limit: int)
    ensures match UsageError(usage, s, limit)
            case None => Within(s, usage, limit)
            case Some(InputOverLimit) => usage.input > s.budget.maxContext
            case Some(OutputOverLimit) => usage.output > limit
            case Some(TotalOverLimit) => s.usage.input + s.usage.output + usage.input + usage.output > s.budget.maxTotal
            case Some(_) => false
  {
  }

  /** After every run of a valid session the turns are numbered upwards, have ids of their own and belong to the session;
      calls are the assistant's, and results are in tool turns. */
  lemma RunKeepsTurnsInOrder(cfg: Config, s: Session, attempts: seq<Attempt>, i: nat, j: nat)
    ensures cfg.Valid() && ValidSession(s) && Drivable(cfg, s, attempts) ==>
              var turns := Run(cfg, s, attempts).turns;
              && (i < j < |turns| ==> turns[i].sequence < turns[j].sequence && turns[i].id != turns[j].id)
              && (i < |turns| ==> turns[i].session == Run(cfg, s, attempts).id)
              && (i < |turns| && j < |turns[i].content| && turns[i].content[j].ToolCall? ==> turns[i].role == Assistant)
              && (i < |turns| && j < |turns[i].content| && turns[i].content[j].ToolResult? ==> turns[i].role == Tool)
  {
    if cfg.Valid() && ValidSession(s) && Drivable(cfg, s, attempts) {
      RunIsValid(cfg, s, attempts, |s.turns|);
      hide Run, Drivable;
      assert i < |Run(cfg, s, attempts).turns| ==> ValidTurn(Run(cfg, s, attempts).turns[i]);
    }
  }

  /** Appending refuses a full session, and else adds the turn, the usage and one revision, if the session may look so. */
  lemma AppendAddsOneTurn(s: Session, turn: Turn, maximum: nat, added: TokenUsage, now: int)
    ensures Append(s, turn, maximum, added, now) == Err(TurnLimit) <==> |s.turns| >= maximum
    ensures Append(s, turn, maximum, added, now).Ok? ==>
              var next := Append(s, turn, maximum, added, now).value;
              && next.turns == s.turns + [turn] && next.revision == s.revision + 1 && next.updatedAt == now
              && next.usage.input == s.usage.input + added.input && next.usage.output == s.usage.output + added.output
              && next.id == s.id && next.active == s.active && next.budget == s.budget && next.createdAt == s.createdAt
              && ValidSession(next)
  {
    hide ValidTurn, ValidSession;
  }
}
