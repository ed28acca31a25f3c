/**
 The agent loop: immutable sessions advanced by a user message or by tool results, each
 time with one model reply. Fresh identifiers, clock readings and replies are inputs.
 */
module AgentLoop {
  import opened Wrappers
  import opened Conversation
  import opened Context

  datatype Config = Config(compactor: Compactor, maxOutput: nat, maxTurns: nat) {
    ghost predicate Valid() {
      compactor.Valid() && 1 <= maxOutput <= 131_072 && 2 <= maxTurns <= 100_000
    }
  }

  datatype LoopError =
    | NotActive | EmptyContent | InjectedTools | TurnLimit | NothingPending | WrongResults
    | BudgetExhausted | ContextTooLarge | NoOutputBudget
    | ModelFailed | InputOverLimit | OutputOverLimit | TotalOverLimit
    | SchemaViolation

  /** What the model answers: text and tool calls with the usage it reports, or a failure. */
  datatype Reply = Unavailable | Output(blocks: seq<Block>, usage: TokenUsage)

  /** Identifiers and clock readings of one advance, in the order they are drawn. */
  datatype Draws = Draws(turn: int, turnCorrelation: int, turnAt: int, appendedAt: int,
                         correlation: int, assistant: int, assistantAt: int, finishedAt: int)

  datatype Advance = Start(content: seq<Block>) | Resume(results: seq<Block>)

  datatype Finished = Finished(session: Session, pending: seq<Block>)

  /** A model request: the projected turns and the output limit asked for. */
  datatype Plan = Plan(turns: seq<Turn>, estimate: nat, outputLimit: int)

  function Left(s: Session): int {
    s.budget.maxTotal - s.usage.Total()
  }

  function NextSequence(s: Session): nat {
    if s.turns == [] then 0 else s.turns[|s.turns| - 1].sequence + 1
  }

  function Append(s: Session, turn: Turn, maximum: nat, added: TokenUsage, now: int): Result<Session, LoopError> {
    if |s.turns| >= maximum then Err(TurnLimit)
    else
      var next := s.(revision := s.revision + 1, usage := s.usage.Plus(added), turns := s.turns + [turn], updatedAt := now);
      if ValidTurn(turn) && ValidSession(next) then Ok(next) else Err(SchemaViolation)
  }

  function Calls(blocks: seq<Block>): seq<Block> {
    if blocks == [] then []
    else (if blocks[0].ToolCall? then [blocks[0]] else []) + Calls(blocks[1..])
  }

  function PendingCalls(s: Session): seq<Block> {
    if s.turns == [] || s.turns[|s.turns| - 1].role != Assistant then [] else Calls(s.turns[|s.turns| - 1].content)
  }

  function Ids(blocks: seq<Block>): set<string> {
    set i | 0 <= i < |blocks| && (blocks[i].ToolCall? || blocks[i].ToolResult?) :: blocks[i].id
  }

  function MakePlan(cfg: Config, s: Session): Result<Plan, LoopError> {
    var left := Left(s);
    if left <= 1 then Err(BudgetExhausted)
    else match Compact(cfg.compactor, s.turns, Min(s.budget.maxContext, left - 1))
      case None => Err(ContextTooLarge)
      case Some(context) =>
        var limit := Min(Min(cfg.maxOutput, s.budget.maxOutput), left - context.estimate);
        if limit < 1 then Err(NoOutputBudget) else Ok(Plan(context.turns, context.estimate, limit))
  }

  function UsageError(usage: TokenUsage, s: Session, limit: int): Option<LoopError> {
    if usage.input > s.budget.maxContext then Some(InputOverLimit)
    else if usage.output > limit then Some(OutputOverLimit)
    else if usage.Total() > Left(s) then Some(TotalOverLimit)
    else None
  }

  function Infer(cfg: Config, s: Session, reply: Reply, draws: Draws): Result<Finished, LoopError> {
    match MakePlan(cfg, s)
    case Err(e) => Err(e)
    case Ok(plan) =>
      match reply
      case Unavailable => Err(ModelFailed)
      case Output(blocks, usage) =>
        var error := UsageError(usage, s, plan.outputLimit);
        if error.Some? then Err(error.value)
        else
          var assistant := Turn(draws.assistant, s.id, draws.correlation, NextSequence(s), Assistant, blocks, draws.assistantAt);
          match Append(s, assistant, cfg.maxTurns, usage, draws.finishedAt)
          case Err(e) => Err(e)
          case Ok(next) => Ok(Finished(next, Calls(blocks)))
  }

  predicate Distinct(blocks: seq<Block>) {
    forall i, j | 0 <= i < j < |blocks| && blocks[i].ToolResult? && blocks[j].ToolResult? :: blocks[i].id != blocks[j].id
  }

  /** What `start` and `resume` check before anything is drawn. */
  function Refusal(cfg: Config, s: Session, advance: Advance): Option<LoopError> {
    match advance
    case Start(content) =>
      if !s.active then Some(NotActive)
      else if content == [] then Some(EmptyContent)
      else if exists i | 0 <= i < |content| :: content[i].ToolCall? || content[i].ToolResult? then Some(InjectedTools)
      else if |s.turns| + 2 > cfg.maxTurns then Some(TurnLimit)
      else None
    case Resume(results) =>
      if PendingCalls(s) == [] then Some(NothingPending)
      else if !Distinct(results) || Ids(results) != Ids(PendingCalls(s)) then Some(WrongResults)
      else if |s.turns| + 2 > cfg.maxTurns then Some(TurnLimit)
      else None
  }

  function FirstTurn(s: Session, advance: Advance, draws: Draws): Turn {
    match advance
    case Start(content) => Turn(draws.turn, s.id, draws.turnCorrelation, NextSequence(s), User, content, draws.turnAt)
    case Resume(results) => Turn(draws.turn, s.id, draws.turnCorrelation, NextSequence(s), Tool, results, draws.turnAt)
  }

  function Advanced(cfg: Config, s: Session, advance: Advance, reply: Reply, draws: Draws): Result<Finished, LoopError> {
    var refusal := Refusal(cfg, s, advance);
    if refusal.Some? then Err(refusal.value)
    else match Append(s, FirstTurn(s, advance, draws), cfg.maxTurns, TokenUsage(0, 0), draws.appendedAt)
      case Err(e) => Err(e)
      case Ok(updated) => Infer(cfg, updated, reply, draws)
  }

  // ---------- Inputs as their own validators guarantee them

  /** Results are result blocks; replies hold 1 to 1024 text or call blocks. */
  ghost predicate WellTyped(advance: Advance, reply: Reply) {
    && (advance.Start? ==> |advance.content| <= MAX_BLOCKS)
    && (advance.Resume? ==> forall i | 0 <= i < |advance.results| :: advance.results[i].ToolResult?)
    && (reply.Output? ==> 1 <= |reply.blocks| <= MAX_BLOCKS
                          && forall i | 0 <= i < |reply.blocks| :: !reply.blocks[i].ToolResult?)
  }

  /** Identifiers never used in the session, and a clock that does not step back. */
  ghost predicate FreshDraws(s: Session, draws: Draws) {
    && draws.turn != draws.assistant
    && (forall i | 0 <= i < |s.turns| :: s.turns[i].id != draws.turn && s.turns[i].id != draws.assistant)
    && s.updatedAt <= draws.appendedAt <= draws.finishedAt
  }

  // ---------- Every request fits, and the last guard is dead

  /** Every planned request asks for at least one output token, and estimate plus limit fit
      what is left; the output-budget guard after compaction never fires. */
  lemma PlanFits(cfg: Config, s: Session)
    requires cfg.Valid() && s.budget.Valid()
    ensures MakePlan(cfg, s) != Err(NoOutputBudget)
    ensures match MakePlan(cfg, s)
            case Ok(plan) =>
              && 1 <= plan.outputLimit <= Min(cfg.maxOutput, s.budget.maxOutput)
              && plan.estimate + plan.outputLimit <= Left(s)
              && plan.estimate <= s.budget.maxContext
              && plan.estimate == cfg.compactor.count(plan.turns)
            case Err(_) => true
  {
    if Left(s) > 1 {
      CompactFits(cfg.compactor, s.turns, Min(s.budget.maxContext, Left(s) - 1));
      hide Compact;
    }
  }

  lemma AppendIsValid(s: Session, turn: Turn, added: TokenUsage, now: int)
    requires ValidSession(s) && ValidTurn(turn) && turn.session == s.id && turn.sequence == NextSequence(s)
    requires |s.turns| < MAX_TURNS && s.updatedAt <= now && added.Total() <= Left(s)
    requires forall i | 0 <= i < |s.turns| :: s.turns[i].id != turn.id
    ensures Append(s, turn, MAX_TURNS, added, now).Ok?
  {
    var turns := s.turns + [turn];
    hide ValidTurn;
    forall i, j | 0 <= i < j < |turns| ensures turns[i].id != turns[j].id && turns[i].sequence < turns[j].sequence {
      if j == |s.turns| && i < j - 1 {
        assert s.turns[i].sequence < s.turns[j - 1].sequence;
      }
    }
  }

  lemma {:induction false} CallsShrink(blocks: seq<Block>)
    ensures |Calls(blocks)| <= |blocks|
    ensures forall i | 0 <= i < |Calls(blocks)| :: Calls(blocks)[i].ToolCall?
  {
    if blocks == [] {
    } else {
      CallsShrink(blocks[1..]);
    }
  }

  /** Distinct results that answer exactly the calls are no more than the calls. */
  lemma {:induction false} AnswersAreBounded(results: seq<Block>, calls: seq<Block>)
    requires (forall i | 0 <= i < |results| :: results[i].ToolResult?) && Distinct(results)
    requires Ids(results) == Ids(calls)
    ensures |results| <= |calls|
    ensures calls != [] && (forall i | 0 <= i < |calls| :: calls[i].ToolCall?) ==> results != []
  {
    DistinctIds(results);
    IdsAtMost(calls);
    if calls != [] && calls[0].ToolCall? {
      assert calls[0].id in Ids(calls);
    }
  }

  lemma IdsSnoc(blocks: seq<Block>, last: Block)
    ensures Ids(blocks + [last]) == Ids(blocks) + (if last.ToolCall? || last.ToolResult? then {last.id} else {})
  {
    var all := blocks + [last];
    forall x ensures x in Ids(all) <==> x in Ids(blocks) || ((last.ToolCall? || last.ToolResult?) && x == last.id) {
      if x in Ids(blocks) {
        var i :| 0 <= i < |blocks| && (blocks[i].ToolCall? || blocks[i].ToolResult?) && blocks[i].id == x;
        assert all[i] == blocks[i];
      }
      if (last.ToolCall? || last.ToolResult?) && x == last.id {
        assert all[|blocks|] == last;
      }
    }
  }

  lemma {:induction false} DistinctIds(results: seq<Block>)
    requires (forall i | 0 <= i < |results| :: results[i].ToolResult?) && Distinct(results)
    ensures |Ids(results)| == |results|
  {
    if results == [] {
    } else {
      var front, last := results[..|results| - 1], results[|results| - 1];
      assert results == front + [last];
      DistinctIds(front);
      IdsSnoc(front, last);
      assert last.id !in Ids(front);
    }
  }

  lemma {:induction false} IdsAtMost(blocks: seq<Block>)
    ensures |Ids(blocks)| <= |blocks|
  {
    if blocks == [] {
    } else {
      var front, last := blocks[..|blocks| - 1], blocks[|blocks| - 1];
      assert blocks == front + [last];
      IdsAtMost(front);
      IdsSnoc(front, last);
    }
  }

  lemma FirstTurnIsValid(cfg: Config, s: Session, advance: Advance, reply: Reply, draws: Draws)
    requires ValidSession(s) && WellTyped(advance, reply) && Refusal(cfg, s, advance).None?
    ensures ValidTurn(FirstTurn(s, advance, draws))
  {
    if advance.Resume? {
      var last := s.turns[|s.turns| - 1];
      CallsShrink(last.content);
      AnswersAreBounded(advance.results, Calls(last.content));
      assert ValidTurn(last);
      assert advance.results[0].ToolResult?;
    }
  }

  /** The session after a successful advance: two more turns, the reported usage, and still valid. */
  ghost predicate Grows(s: Session, advance: Advance, reply: Reply, draws: Draws, next: Session) {
    && ValidSession(next) && reply.Output?
    && |next.turns| == |s.turns| + 2 && next.turns[..|s.turns|] == s.turns
    && next.turns[|s.turns|] == FirstTurn(s, advance, draws)
    && next.turns[|s.turns| + 1].role == Assistant && next.turns[|s.turns| + 1].content == reply.blocks
    && next.usage == s.usage.Plus(reply.usage) && next.revision == s.revision + 2
    && next.budget == s.budget && next.id == s.id && next.active == s.active && next.updatedAt == draws.finishedAt
  }

  lemma FirstAppendIsValid(cfg: Config, s: Session, advance: Advance, reply: Reply, draws: Draws)
    requires cfg.Valid() && ValidSession(s) && WellTyped(advance, reply) && FreshDraws(s, draws)
    requires Refusal(cfg, s, advance).None?
    ensures var first := FirstTurn(s, advance, draws);
            var updated := s.(revision := s.revision + 1, usage := s.usage.Plus(TokenUsage(0, 0)),
                              turns := s.turns + [first], updatedAt := draws.appendedAt);
            && Append(s, first, cfg.maxTurns, TokenUsage(0, 0), draws.appendedAt) == Ok(updated)
            && ValidSession(updated) && |updated.turns| < cfg.maxTurns
            && forall i | 0 <= i < |updated.turns| :: updated.turns[i].id != draws.assistant
  {
    var first := FirstTurn(s, advance, draws);
    FirstTurnIsValid(cfg, s, advance, reply, draws);
    AppendIsValid(s, first, TokenUsage(0, 0), draws.appendedAt);
    hide ValidTurn, ValidSession;
  }

  lemma TwoAppendsGrow(s: Session, advance: Advance, reply: Reply, draws: Draws, assistant: Turn, next: Session)
    requires ValidSession(next) && reply.Output? && assistant.role == Assistant && assistant.content == reply.blocks
    requires next == s.(revision := s.revision + 2, usage := s.usage.Plus(TokenUsage(0, 0)).Plus(reply.usage),
                        turns := s.turns + [FirstTurn(s, advance, draws)] + [assistant], updatedAt := draws.finishedAt)
    ensures Grows(s, advance, reply, draws, next)
  {
    hide ValidSession;
    assert next.turns[..|s.turns|] == s.turns;
  }

  /** An advance either fails, never for a schema reason, or grows the session. */
  lemma AdvanceIsValid(cfg: Config, s: Session, advance: Advance, reply: Reply, draws: Draws)
    requires cfg.Valid() && ValidSession(s) && WellTyped(advance, reply) && FreshDraws(s, draws)
    ensures match Advanced(cfg, s, advance, reply, draws)
            case Err(e) => !e.SchemaViolation? && !e.NoOutputBudget?
            case Ok(r) => Grows(s, advance, reply, draws, r.session) && r.pending == Calls(reply.blocks)
  {
    hide ValidTurn, ValidSession, Infer, Refusal, Append, Grows, FirstTurn;
    if Refusal(cfg, s, advance).None? {
      FirstAppendIsValid(cfg, s, advance, reply, draws);
      var updated := Append(s, FirstTurn(s, advance, draws), cfg.maxTurns, TokenUsage(0, 0), draws.appendedAt).value;
      InferIsValid(cfg, updated, reply, draws);
      var result := Infer(cfg, updated, reply, draws);
      if result.Ok? {
        var assistant := Turn(draws.assistant, s.id, draws.correlation, NextSequence(updated), Assistant, reply.blocks, draws.assistantAt);
        TwoAppendsGrow(s, advance, reply, draws, assistant, result.value.session);
      }
    } else {
      RefusalIsNoSchemaError(cfg, s, advance);
    }
  }

  lemma RefusalIsNoSchemaError(cfg: Config, s: Session, advance: Advance)
    ensures Refusal(cfg, s, advance) != Some(SchemaViolation) && Refusal(cfg, s, advance) != Some(NoOutputBudget)
  {
  }

  lemma InferIsValid(cfg: Config, s: Session, reply: Reply, draws: Draws)
    requires cfg.Valid() && ValidSession(s) && s.updatedAt <= draws.finishedAt && |s.turns| < cfg.maxTurns
    requires reply.Output? ==> 1 <= |reply.blocks| <= MAX_BLOCKS
                               && forall i | 0 <= i < |reply.blocks| :: !reply.blocks[i].ToolResult?
    requires forall i | 0 <= i < |s.turns| :: s.turns[i].id != draws.assistant
    ensures match Infer(cfg, s, reply, draws)
            case Err(e) => !e.SchemaViolation? && !e.NoOutputBudget?
            case Ok(r) =>
              var assistant := Turn(draws.assistant, s.id, draws.correlation, NextSequence(s), Assistant, reply.blocks, draws.assistantAt);
              && reply.Output? && r.pending == Calls(reply.blocks)
              && ValidSession(r.session)
              && r.session == s.(revision := s.revision + 1, usage := s.usage.Plus(reply.usage),
                                 turns := s.turns + [assistant], updatedAt := draws.finishedAt)
  {
    PlanFits(cfg, s);
    if MakePlan(cfg, s).Ok? && reply.Output? && UsageError(reply.usage, s, MakePlan(cfg, s).value.outputLimit).None? {
      var assistant := Turn(draws.assistant, s.id, draws.correlation, NextSequence(s), Assistant, reply.blocks, draws.assistantAt);
      AppendIsValid(s, assistant, reply.usage, draws.finishedAt);
      hide MakePlan, ValidTurn;
    } else {
      hide MakePlan, ValidSession, ValidTurn;
    }
  }

  // ---------- Whole runs

  datatype Attempt = Attempt(advance: Advance, reply: Reply, draws: Draws)

  /** A caller keeps its session when an advance fails. */
  function Run(cfg: Config, s: Session, attempts: seq<Attempt>): Session
    decreases |attempts|
  {
    if attempts == [] then s
    else
      var a := attempts[0];
      match Advanced(cfg, s, a.advance, a.reply, a.draws)
      case Ok(r) => Run(cfg, r.session, attempts[1..])
      case Err(_) => Run(cfg, s, attempts[1..])
  }

  /** Every attempt of a run is well typed and draws fresh identifiers and later times. */
  ghost predicate Drivable(cfg: Config, s: Session, attempts: seq<Attempt>)
    decreases |attempts|
  {
    attempts != [] ==>
      var a := attempts[0];
      && WellTyped(a.advance, a.reply) && FreshDraws(s, a.draws)
      && match Advanced(cfg, s, a.advance, a.reply, a.draws)
         case Ok(r) => Drivable(cfg, r.session, attempts[1..])
         case Err(_) => Drivable(cfg, s, attempts[1..])
  }

  /** From turn `from` on, every tool turn answers exactly the calls of the assistant turn just
      before it, each once. */
  ghost predicate Answered(turns: seq<Turn>, from: nat) {
    forall i | from <= i < |turns| && turns[i].role == Tool :: AnswersPrevious(turns, i)
  }

  ghost predicate AnswersPrevious(turns: seq<Turn>, i: nat)
    requires i < |turns|
  {
    && i > 0 && turns[i - 1].role == Assistant
    && Distinct(turns[i].content)
    && Ids(turns[i].content) == Ids(Calls(turns[i - 1].content))
  }

  lemma GrowthStaysAnswered(cfg: Config, s: Session, a: Attempt, next: Session, from: nat)
    requires Grows(s, a.advance, a.reply, a.draws, next) && Refusal(cfg, s, a.advance).None?
    requires Answered(s.turns, from)
    ensures Answered(next.turns, from)
  {
    var n := |s.turns|;
    hide ValidSession, Distinct, Ids, Calls;
    forall i | from <= i < |next.turns| && next.turns[i].role == Tool ensures AnswersPrevious(next.turns, i) {
      if i < n {
        assert next.turns[..n][i] == s.turns[i];
        assert AnswersPrevious(s.turns, i);
        assert next.turns[..n][i - 1] == s.turns[i - 1];
      } else {
        assert i == n && a.advance.Resume?;
        assert s.turns != [] && s.turns[n - 1].role == Assistant;
        assert next.turns[..n][n - 1] == s.turns[n - 1];
      }
    }
  }

  /** From any valid session, every run of starts and resumes with any model replies keeps the
      usage within budget and the sequences strictly increasing, only ever adds turns, and
      lets every tool turn answer exactly the calls of the turn before it; a start may leave
      calls unanswered. */
  lemma {:induction false} RunIsValid(cfg: Config, s: Session, attempts: seq<Attempt>, from: nat)
    requires cfg.Valid() && ValidSession(s) && Drivable(cfg, s, attempts) && Answered(s.turns, from)
    ensures var after := Run(cfg, s, attempts);
            && ValidSession(after) && after.usage.Total() <= after.budget.maxTotal
            && after.budget == s.budget && s.turns <= after.turns
            && Answered(after.turns, from)
    decreases |attempts|
  {
    if attempts == [] {
    } else {
      var a := attempts[0];
      AdvanceIsValid(cfg, s, a.advance, a.reply, a.draws);
      hide Answered, Refusal, WellTyped, FreshDraws, Advanced;
      match Advanced(cfg, s, a.advance, a.reply, a.draws) {
        case Ok(r) =>
          NotRefused(cfg, s, a);
          GrowthStaysAnswered(cfg, s, a, r.session, from);
          RunIsValid(cfg, r.session, attempts[1..], from);
        case Err(_) =>
          RunIsValid(cfg, s, attempts[1..], from);
      }
    }
  }

  lemma NotRefused(cfg: Config, s: Session, a: Attempt)
    requires Advanced(cfg, s, a.advance, a.reply, a.draws).Ok?
    ensures Refusal(cfg, s, a.advance).None?
  {
  }
}
