/**
 Context compaction: the fewest leading turns are replaced by one summary so that the rest
 fits a token limit. The token counter, SHA-256 and name-based identifiers are given.
 */
module Context {
  import opened Wrappers
  import opened Conversation

  /** `count` counts a list of turns together with the tools of the call. */
  datatype Compactor = Compactor(count: seq<Turn> -> nat, digest: seq<Turn> -> string, nameId: (int, string) -> int,
                                 minRecent: nat, maxSummary: nat) {
    ghost predicate Valid() {
      1 <= minRecent <= 100 && 256 <= maxSummary <= 65_536 && forall turns :: |digest(turns)| == 64
    }
  }

  datatype Compaction = Compaction(turns: seq<Turn>, estimate: nat, omitted: nat)

  // ---------- The summary

  function Digit(n: nat): char
    requires n < 10
  {
    "0123456789"[n]
  }

  function Decimal(n: nat): string {
    if n < 10 then [Digit(n)] else Decimal(n / 10) + [Digit(n % 10)]
  }

  function RoleName(role: Role): string {
    match role
    case System => "system"
    case User => "user"
    case Assistant => "assistant"
    case Tool => "tool"
  }

  function BlockExcerpt(block: Block): string {
    match block
    case Text(text) => text
    case Image(mediaType, _) => "[image " + mediaType + "]"
    case ToolCall(id, name, _) => "[tool call " + name + " id=" + id + "]"
    case ToolResult(id, _, isError) => "[tool result id=" + id + " " + (if isError then "error" else "completed") + "]"
  }

  function Excerpts(content: seq<Block>): seq<string> {
    if content == [] then [] else [BlockExcerpt(content[0])] + Excerpts(content[1..])
  }

  function TurnLine(turn: Turn): string {
    RoleName(turn.role) + ": " + Join(Excerpts(turn.content), " ")
  }

  const HEADER_START := "[Deterministic context summary: "
  const HEADER_MIDDLE := " earlier turns; sha256="

  function Header(c: Compactor, omitted: seq<Turn>): string {
    HEADER_START + Decimal(|omitted|) + HEADER_MIDDLE + c.digest(omitted) + "]"
  }

  /** One line a turn, cut to what is left of the budget. */
  function SummaryLines(omitted: seq<Turn>, remaining: int): seq<string> {
    if omitted == [] || remaining <= 0 then []
    else
      var line := TurnLine(omitted[0]);
      var kept := line[..Min(|line|, remaining)];
      [kept] + SummaryLines(omitted[1..], remaining - |kept| - 1)
  }

  function SummaryText(c: Compactor, omitted: seq<Turn>): string {
    var header := Header(c, omitted);
    Join([header] + SummaryLines(omitted, c.maxSummary - |header| - 1), "\n")
  }

  function SummaryTurn(c: Compactor, omitted: seq<Turn>): Turn
    requires omitted != []
  {
    var first, last, digest := omitted[0], omitted[|omitted| - 1], c.digest(omitted);
    Turn(c.nameId(first.session, "context-summary:" + digest), first.session,
         c.nameId(first.session, "context-correlation:" + digest), last.sequence, System,
         [Text(SummaryText(c, omitted))], last.createdAt)
  }

  /** The length of joined lines: their own, and one separator before each but the first. */
  function Extra(lines: seq<string>): nat {
    if lines == [] then 0 else 1 + |lines[0]| + Extra(lines[1..])
  }

  lemma {:induction false} JoinedLength(first: string, lines: seq<string>)
    ensures |Join([first] + lines, "\n")| == |first| + Extra(lines)
    decreases |lines|
  {
    if lines == [] {
    } else {
      JoinedLength(lines[0], lines[1..]);
      assert [lines[0]] + lines[1..] == lines && ([first] + lines)[1..] == lines;
    }
  }

  lemma {:induction false} SummaryLinesFit(omitted: seq<Turn>, remaining: int)
    ensures Extra(SummaryLines(omitted, remaining)) <= if remaining > 0 then remaining + 1 else 0
  {
    hide TurnLine;
    if omitted != [] && remaining > 0 {
      var line := TurnLine(omitted[0]);
      var kept := line[..Min(|line|, remaining)];
      var later := SummaryLines(omitted[1..], remaining - |kept| - 1);
      SummaryLinesFit(omitted[1..], remaining - |kept| - 1);
      assert ([kept] + later)[1..] == later;
    }
  }

  function Power10(n: nat): nat {
    if n == 0 then 1 else 10 * Power10(n - 1)
  }

  lemma {:induction false} DecimalLength(n: nat, digits: nat)
    requires digits >= 1 && n < Power10(digits)
    ensures |Decimal(n)| <= digits
  {
    if n >= 10 {
      DecimalLength(n / 10, digits - 1);
    }
  }

  lemma HeaderLength(c: Compactor, omitted: seq<Turn>)
    requires c.Valid() && |omitted| <= MAX_TURNS
    ensures |Header(c, omitted)| <= 126
  {
    hide Decimal;
    assert Power10(3) == 1_000;
    assert Power10(6) == 1_000_000;
    DecimalLength(|omitted|, 6);
  }

  /** The summary text stays within its bound, for every list of turns a session can hold. */
  lemma SummaryTextFits(c: Compactor, omitted: seq<Turn>)
    requires c.Valid() && |omitted| <= MAX_TURNS
    ensures |SummaryText(c, omitted)| <= c.maxSummary
  {
    var header := Header(c, omitted);
    HeaderLength(c, omitted);
    hide Header;
    SummaryLinesFit(omitted, c.maxSummary - |header| - 1);
    JoinedLength(header, SummaryLines(omitted, c.maxSummary - |header| - 1));
  }

  /** `_summary_turn`'s loop: a line a turn until the budget is gone. */
  method SummaryLoop(omitted: seq<Turn>, budget: int) returns (lines: seq<string>)
    ensures lines == SummaryLines(omitted, budget)
  {
    hide TurnLine;
    lines := [];
    var remaining, i := budget, 0;
    assert omitted[0..] == omitted;
    while i < |omitted| && remaining > 0
      invariant 0 <= i <= |omitted|
      invariant lines + SummaryLines(omitted[i..], remaining) == SummaryLines(omitted, budget)
    {
      assert omitted[i..][1..] == omitted[i + 1..];
      var line := TurnLine(omitted[i]);
      line := line[..Min(|line|, remaining)];
      Assoc(lines, [line], SummaryLines(omitted[i + 1..], remaining - |line| - 1));
      lines := lines + [line];
      remaining := remaining - |line| - 1;
      i := i + 1;
    }
    assert lines + [] == lines;
  }

  // ---------- The cuts

  function LeadingSystem(turns: seq<Turn>): (n: nat)
    ensures n <= |turns|
  {
    if turns == [] || turns[0].role != System then 0 else 1 + LeadingSystem(turns[1..])
  }

  function Minimum(c: Compactor, removable: seq<Turn>): nat {
    Min(c.minRecent, |removable|)
  }

  /** A cut may not leave a tool turn in front, unless it leaves exactly the minimum. */
  predicate IsCut(c: Compactor, removable: seq<Turn>, k: nat) {
    && 1 <= k <= |removable| - Minimum(c, removable)
    && (k == |removable| - Minimum(c, removable) || removable[k].role != Tool)
  }

  function Projection(c: Compactor, turns: seq<Turn>, k: nat): seq<Turn>
    requires 1 <= k <= |turns| - LeadingSystem(turns)
  {
    var lead := LeadingSystem(turns);
    turns[..lead] + [SummaryTurn(c, turns[lead..][..k])] + turns[lead..][k..]
  }

  /** The next cut after omitting one more turn. */
  function NextCut(c: Compactor, removable: seq<Turn>, k: nat): (r: nat)
    requires 1 <= k <= |removable| - Minimum(c, removable)
    ensures k <= r && IsCut(c, removable, r)
    ensures forall j | k <= j < r :: !IsCut(c, removable, j)
    decreases |removable| - k
  {
    if IsCut(c, removable, k) then k else NextCut(c, removable, k + 1)
  }

  /** The first cut from `k` on that fits. */
  function Search(c: Compactor, turns: seq<Turn>, k: nat, limit: int): Option<Compaction>
    requires k <= |turns| - LeadingSystem(turns)
    decreases |turns| - k
  {
    var removable := turns[LeadingSystem(turns)..];
    if |removable| - k <= Minimum(c, removable) then None
    else
      var cut := NextCut(c, removable, k + 1);
      var projected := Projection(c, turns, cut);
      if c.count(projected) <= limit then Some(Compaction(projected, c.count(projected), cut))
      else Search(c, turns, cut, limit)
  }

  function Compact(c: Compactor, turns: seq<Turn>, limit: int): Option<Compaction> {
    if limit < 1 then None
    else if c.count(turns) <= limit then Some(Compaction(turns, c.count(turns), 0))
    else Search(c, turns, 0, limit)
  }

  ghost predicate FittingCut(c: Compactor, turns: seq<Turn>, k: nat, limit: int) {
    && IsCut(c, turns[LeadingSystem(turns)..], k)
    && c.count(Projection(c, turns, k)) <= limit
  }

  /** No cut strictly between the two fits. */
  ghost predicate NoneFits(c: Compactor, turns: seq<Turn>, after: nat, before: nat, limit: int) {
    forall j | after < j < before :: !FittingCut(c, turns, j, limit)
  }

  /** The smallest fitting cut after `k`, projected; or nothing, when no cut after `k` fits. */
  ghost predicate SmallestAfter(c: Compactor, turns: seq<Turn>, k: nat, limit: int, r: Option<Compaction>) {
    match r
    case None => NoneFits(c, turns, k, |turns| + 1, limit)
    case Some(found) =>
      && k < found.omitted && FittingCut(c, turns, found.omitted, limit)
      && NoneFits(c, turns, k, found.omitted, limit)
      && found.turns == Projection(c, turns, found.omitted) && found.estimate == c.count(found.turns)
  }

  lemma NoneBetweenCuts(c: Compactor, turns: seq<Turn>, k: nat, limit: int)
    requires var removable := turns[LeadingSystem(turns)..]; k + 1 <= |removable| - Minimum(c, removable)
    ensures NoneFits(c, turns, k, NextCut(c, turns[LeadingSystem(turns)..], k + 1), limit)
  {
    var removable := turns[LeadingSystem(turns)..];
    var cut := NextCut(c, removable, k + 1);
    hide IsCut, Minimum;
    forall j | k < j < cut ensures !FittingCut(c, turns, j, limit) {
      assert !IsCut(c, removable, j);
    }
  }

  lemma NoCutIsLeft(c: Compactor, turns: seq<Turn>, k: nat, limit: int)
    requires var removable := turns[LeadingSystem(turns)..]; |removable| - k <= Minimum(c, removable)
    ensures NoneFits(c, turns, k, |turns| + 1, limit)
  {
  }

  lemma {:induction false} SearchFindsTheSmallest(c: Compactor, turns: seq<Turn>, k: nat, limit: int)
    requires k <= |turns| - LeadingSystem(turns)
    ensures SmallestAfter(c, turns, k, limit, Search(c, turns, k, limit))
    decreases |turns| - k
  {
    var removable := turns[LeadingSystem(turns)..];
    if |removable| - k <= Minimum(c, removable) {
      NoCutIsLeft(c, turns, k, limit);
    } else {
      var cut := NextCut(c, removable, k + 1);
      NoneBetweenCuts(c, turns, k, limit);
      assert IsCut(c, removable, cut);
      assert FittingCut(c, turns, cut, limit) <==> c.count(Projection(c, turns, cut)) <= limit;
      if !FittingCut(c, turns, cut, limit) {
        SearchFindsTheSmallest(c, turns, cut, limit);
        NoneJoins(c, turns, k, cut, limit);
      }
    }
  }

  lemma NoneJoins(c: Compactor, turns: seq<Turn>, k: nat, cut: nat, limit: int)
    requires NoneFits(c, turns, k, cut, limit) && k < cut && !FittingCut(c, turns, cut, limit)
    requires cut <= |turns| - LeadingSystem(turns) && SmallestAfter(c, turns, cut, limit, Search(c, turns, cut, limit))
    ensures SmallestAfter(c, turns, k, limit, Search(c, turns, cut, limit))
  {
    hide FittingCut, Search, Projection;
  }

  /** Compaction keeps a fitting conversation; otherwise it makes the smallest cut that fits,
      and it fails only when none does. */
  lemma CompactIsMinimal(c: Compactor, turns: seq<Turn>, limit: int)
    ensures limit < 1 ==> Compact(c, turns, limit).None?
    ensures limit >= 1 && c.count(turns) <= limit ==> Compact(c, turns, limit) == Some(Compaction(turns, c.count(turns), 0))
    ensures limit >= 1 && c.count(turns) > limit ==> SmallestAfter(c, turns, 0, limit, Compact(c, turns, limit))
  {
    hide Search, SmallestAfter;
    if limit >= 1 && c.count(turns) > limit {
      SearchFindsTheSmallest(c, turns, 0, limit);
    }
  }

  /** Whatever compaction returns is counted right and fits the limit. */
  lemma CompactFits(c: Compactor, turns: seq<Turn>, limit: int)
    ensures match Compact(c, turns, limit)
            case Some(r) => r.estimate == c.count(r.turns) <= limit
            case None => true
  {
    CompactIsMinimal(c, turns, limit);
    hide Search, LeadingSystem, Projection;
  }

  /** The loops of `compact`. */
  method CompactTurns(c: Compactor, turns: seq<Turn>, limit: int) returns (r: Option<Compaction>)
    ensures r == Compact(c, turns, limit)
  {
    hide SummaryTurn;
    if limit < 1 {
      return None;
    }
    var estimate := c.count(turns);
    if estimate <= limit {
      return Some(Compaction(turns, estimate, 0));
    }
    var lead := LeadingSystem(turns);
    var all := turns[lead..];
    var removable, omitted := all, [];
    var minimum := Minimum(c, all);
    while |removable| > minimum
      invariant |omitted| <= |all| && omitted == all[..|omitted|] && removable == all[|omitted|..]
      invariant Search(c, turns, |omitted|, limit) == Search(c, turns, 0, limit)
      decreases |removable|
    {
      ghost var k := |omitted|;
      omitted, removable := OmitToNextCut(c, all, omitted);
      var projected := turns[..lead] + [SummaryTurn(c, omitted)] + removable;
      assert projected == Projection(c, turns, |omitted|);
      estimate := c.count(projected);
      if estimate <= limit {
        return Some(Compaction(projected, estimate, |omitted|));
      }
    }
    return None;
  }

  /** Omits one more turn, and then tool turns while more than the minimum is left. */
  method OmitToNextCut(c: Compactor, all: seq<Turn>, before: seq<Turn>) returns (omitted: seq<Turn>, removable: seq<Turn>)
    requires |before| < |all| - Minimum(c, all) && before == all[..|before|]
    ensures |omitted| == NextCut(c, all, |before| + 1) && omitted == all[..|omitted|] && removable == all[|omitted|..]
  {
    var minimum := Minimum(c, all);
    omitted, removable := before + [all[|before|]], all[|before| + 1..];
    while removable != [] && removable[0].role == Tool && |removable| > minimum
      invariant |before| < |omitted| <= |all| - minimum && omitted == all[..|omitted|] && removable == all[|omitted|..]
      invariant NextCut(c, all, |before| + 1) == NextCut(c, all, |omitted|)
      decreases |removable|
    {
      omitted, removable := omitted + [removable[0]], removable[1..];
    }
  }
}
