/** Turns, sessions and their validators. */
module Conversation {
  import opened Wrappers

  datatype Role = System | User | Assistant | Tool

  datatype Block =
    | Text(text: string)
    | Image(mediaType: string, data: string)
    | ToolCall(id: string, name: string, arguments: string)
    | ToolResult(id: string, output: string, isError: bool)

  datatype Turn = Turn(id: int, session: int, correlation: int, sequence: nat, role: Role, content: seq<Block>, createdAt: int)

  datatype TokenUsage = TokenUsage(input: nat, output: nat) {
    function Total(): nat {
      input + output
    }

    function Plus(other: TokenUsage): TokenUsage {
      TokenUsage(input + other.input, output + other.output)
    }
  }

  datatype TokenBudget = TokenBudget(maxContext: nat, maxOutput: nat, maxTotal: nat) {
    predicate Valid() {
      maxContext >= 128 && maxOutput >= 1 && maxTotal >= 2 && maxOutput < maxTotal
    }
  }

  datatype Session = Session(id: int, revision: nat, active: bool, budget: TokenBudget, usage: TokenUsage,
                             turns: seq<Turn>, createdAt: int, updatedAt: int)

  const MAX_BLOCKS := 1024
  const MAX_TURNS := 100_000

  predicate ValidTurn(turn: Turn) {
    && 1 <= |turn.content| <= MAX_BLOCKS
    && (forall i | 0 <= i < |turn.content| :: turn.content[i].ToolCall? ==> turn.role == Assistant)
    && (forall i | 0 <= i < |turn.content| :: turn.content[i].ToolResult? ==> turn.role == Tool)
    && (turn.role == Tool ==> exists i | 0 <= i < |turn.content| :: turn.content[i].ToolResult?)
  }

  predicate ValidSession(s: Session) {
    && s.budget.Valid() && |s.turns| <= MAX_TURNS
    && s.createdAt <= s.updatedAt
    && s.usage.Total() <= s.budget.maxTotal
    && (forall i | 0 <= i < |s.turns| :: s.turns[i].session == s.id && ValidTurn(s.turns[i]))
    && (forall i, j | 0 <= i < j < |s.turns| :: s.turns[i].id != s.turns[j].id)
    && (forall i, j | 0 <= i < j < |s.turns| :: s.turns[i].sequence < s.turns[j].sequence)
  }
}
