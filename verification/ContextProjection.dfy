/**
 What a compacted conversation holds, turn by turn: the system turns in front, one summary, and the recent turns.
 */
module ContextProjection {
  import opened Wrappers
  import opened Conversation
  import opened Context

  /** The first `n` turns are system turns, and the next one, if any, is not. */
  ghost predicate SystemPrefix(turns: seq<Turn>, n: nat) {
    && n <= |turns| && (forall i | 0 <= i < n :: turns[i].role == System)
    && (n < |turns| ==> turns[n].role != System)
  }

  lemma {:induction false} PrefixIsLeading(turns: seq<Turn>, n: nat)
    ensures SystemPrefix(turns, n) ==> LeadingSystem(turns) == n
    decreases |turns|
  {
    if turns == [] || n == 0 {
    } else if SystemPrefix(turns, n) {
      assert forall i | 0 <= i < n - 1 :: turns[1..][i] == turns[i + 1];
      assert SystemPrefix(turns[1..], n - 1);
      PrefixIsLeading(turns[1..], n - 1);
    }
  }

  /** A system turn that stands for the omitted ones: their session, and the place and time of the last of them. */
  ghost predicate StandsFor(c: Compactor, summary: Turn, omitted: seq<Turn>) {
    && omitted != [] && summary.role == System
    && summary.session == omitted[0].session
    && summary.sequence == omitted[|omitted| - 1].sequence && summary.createdAt == omitted[|omitted| - 1].createdAt
    && summary.id == c.nameId(omitted[0].session, "context-summary:" + c.digest(omitted))
    && summary.correlation == c.nameId(omitted[0].session, "context-correlation:" + c.digest(omitted))
    && |summary.content| == 1 && summary.content[0] == Text(SummaryText(c, omitted))
  }

  /** The turns with `k` of them after the first `n` replaced by `summary`. */
  function Replaced(turns: seq<Turn>, n: nat, k: nat, summary: Turn): seq<Turn>
    requires n + k <= |turns|
  {
    turns[..n] + [summary] + turns[n + k..]
  }

  /** A cut after `k` turns beyond the prefix: it keeps the recent minimum, and does not leave a tool turn in front
      unless it leaves exactly that minimum. */
  ghost predicate Allowed(c: Compactor, turns: seq<Turn>, n: nat, k: nat) {
    && n + k <= |turns| && k >= 1
    && var left := |turns| - n - k;
       left >= c.minRecent && (left == c.minRecent || turns[n + k].role != Tool)
  }

  ghost predicate Fits(c: Compactor, turns: seq<Turn>, n: nat, k: nat, limit: int) {
    Allowed(c, turns, n, k) && forall s | StandsFor(c, s, turns[n..n + k]) :: c.count(Replaced(turns, n, k, s)) <= limit
  }

  lemma SummaryStands(c: Compactor, omitted: seq<Turn>, s: Turn)
    ensures omitted != [] ==> (StandsFor(c, s, omitted) <==> s == SummaryTurn(c, omitted))
  {
    hide SummaryText;
    if omitted != [] && StandsFor(c, s, omitted) {
      assert s.content == [s.content[0]];
    }
  }

  lemma OneSummary(c: Compactor, omitted: seq<Turn>)
    requires omitted != []
    ensures StandsFor(c, SummaryTurn(c, omitted), omitted)
    ensures forall s | StandsFor(c, s, omitted) :: s == SummaryTurn(c, omitted)
  {
    forall s | StandsFor(c, s, omitted) ensures s == SummaryTurn(c, omitted) {
      SummaryStands(c, omitted, s);
    }
    SummaryStands(c, omitted, SummaryTurn(c, omitted));
  }

  lemma CutsAreAllowed(c: Compactor, turns: seq<Turn>, n: nat, k: nat)
    ensures SystemPrefix(turns, n) ==> (IsCut(c, turns[n..], k) <==> Allowed(c, turns, n, k))
  {
  }

  lemma ProjectionReplaces(c: Compactor, turns: seq<Turn>, n: nat, k: nat)
    requires SystemPrefix(turns, n) && 1 <= k <= |turns| - n
    ensures LeadingSystem(turns) == n
    ensures Projection(c, turns, k) == Replaced(turns, n, k, SummaryTurn(c, turns[n..n + k]))
  {
    PrefixIsLeading(turns, n);
    hide LeadingSystem, SummaryTurn;
    assert turns[n..][..k] == turns[n..n + k] && turns[n..][k..] == turns[n + k..];
  }

  lemma FittingIsFits(c: Compactor, turns: seq<Turn>, n: nat, k: nat, limit: int)
    ensures SystemPrefix(turns, n) ==> (FittingCut(c, turns, k, limit) <==> Fits(c, turns, n, k, limit))
  {
    if SystemPrefix(turns, n) {
      PrefixIsLeading(turns, n);
      CutsAreAllowed(c, turns, n, k);
      hide LeadingSystem, SystemPrefix, SummaryTurn, StandsFor, Projection, IsCut;
      if IsCut(c, turns[n..], k) {
        CutIsInside(c, turns[n..], k);
        ProjectionReplaces(c, turns, n, k);
        OneSummary(c, turns[n..n + k]);
      }
    }
  }

  lemma CutIsInside(c: Compactor, removable: seq<Turn>, k: nat)
    ensures IsCut(c, removable, k) ==> 1 <= k <= |removable|
  {
  }

  /** The fewest turns that an allowed and fitting cut omits have given way to one summary, and all else is kept; or
      no allowed cut fits. */
  ghost predicate LeastOmitted(c: Compactor, turns: seq<Turn>, limit: int, n: nat, r: Option<Compaction>) {
    match r
    case None => forall k :: !Fits(c, turns, n, k, limit)
    case Some(found) =>
      && Fits(c, turns, n, found.omitted, limit)
      && (forall k | 0 <= k < found.omitted :: !Fits(c, turns, n, k, limit))
      && n + found.omitted <= |turns| && |found.turns| == |turns| - found.omitted + 1
      && StandsFor(c, found.turns[n], turns[n..n + found.omitted])
      && found.turns == Replaced(turns, n, found.omitted, found.turns[n])
  }

  lemma NoneFitBelow(c: Compactor, turns: seq<Turn>, limit: int, n: nat, end: nat, k: nat)
    ensures SystemPrefix(turns, n) && NoneFits(c, turns, 0, end, limit) && k < end ==> !Fits(c, turns, n, k, limit)
  {
    FittingIsFits(c, turns, n, k, limit);
    FitsInside(c, turns, n, limit);
    hide FittingCut, Fits, SystemPrefix;
  }

  lemma SmallestIsLeast(c: Compactor, turns: seq<Turn>, limit: int, n: nat, r: Option<Compaction>)
    requires SystemPrefix(turns, n) && SmallestAfter(c, turns, 0, limit, r)
    ensures LeastOmitted(c, turns, limit, n, r)
  {
    hide NoneFits, FittingCut, Fits, SystemPrefix, StandsFor, Projection, Replaced, LeadingSystem;
    match r {
      case None =>
        forall k: nat ensures !Fits(c, turns, n, k, limit) {
          NoneFitBelow(c, turns, limit, n, |turns| + 1, k);
          FitsInside(c, turns, n, limit);
        }
      case Some(found) =>
        FittingIsFits(c, turns, n, found.omitted, limit);
        CompactedTurns(c, turns, n, found.omitted, limit);
        forall k | 0 <= k < found.omitted ensures !Fits(c, turns, n, k, limit) {
          NoneFitBelow(c, turns, limit, n, found.omitted, k);
        }
    }
  }

  /** Compacting a conversation over the limit keeps its leading system turns in front and its recent turns at the end,
      and omits no more than it must in between. */
  lemma CompactionKeepsSystem(c: Compactor, turns: seq<Turn>, limit: int, n: nat)
    ensures SystemPrefix(turns, n) && limit >= 1 && c.count(turns) > limit ==>
              LeastOmitted(c, turns, limit, n, Compact(c, turns, limit))
  {
    if SystemPrefix(turns, n) && limit >= 1 && c.count(turns) > limit {
      CompactIsMinimal(c, turns, limit);
      hide Compact, SystemPrefix, SmallestAfter, LeastOmitted;
      SmallestIsLeast(c, turns, limit, n, Compact(c, turns, limit));
    }
  }

  lemma FitsInside(c: Compactor, turns: seq<Turn>, n: nat, limit: int)
    ensures forall k: nat | Fits(c, turns, n, k, limit) :: 1 <= k <= |turns| - n
  {
  }

  lemma CompactedTurns(c: Compactor, turns: seq<Turn>, n: nat, k: nat, limit: int)
    requires SystemPrefix(turns, n) && Fits(c, turns, n, k, limit)
    ensures 1 <= k <= |turns| - n && LeadingSystem(turns) == n
    ensures var projected := Projection(c, turns, k);
            && |projected| == |turns| - k + 1 && StandsFor(c, projected[n], turns[n..n + k])
            && projected == Replaced(turns, n, k, projected[n])
  {
    ProjectionReplaces(c, turns, n, k);
    SummaryStands(c, turns[n..n + k], SummaryTurn(c, turns[n..n + k]));
    hide SummaryTurn, StandsFor, SystemPrefix, LeadingSystem;
  }

  // ---------- What a summary says

  function Value(digits: string): nat {
    if digits == "" then 0
    else
      var last := digits[|digits| - 1];
      10 * Value(digits[..|digits| - 1]) + (if '0' <= last <= '9' then last as int - '0' as int else 0)
  }

  lemma DigitReadsBack(n: nat)
    ensures n < 10 ==> '0' <= Digit(n) <= '9' && Digit(n) as int - '0' as int == n
  {
  }

  lemma ValueSnoc(digits: string, last: char)
    ensures Value(digits + [last]) == 10 * Value(digits) + (if '0' <= last <= '9' then last as int - '0' as int else 0)
  {
    assert (digits + [last])[..|digits|] == digits;
  }

  /** The number in the header is the number of omitted turns. */
  lemma {:induction false} DecimalReadsBack(n: nat)
    ensures Value(Decimal(n)) == n
  {
    hide Digit, Value;
    DigitReadsBack(n % 10);
    if n < 10 {
      ValueSnoc("", Digit(n));
      NoDigits();
      assert "" + [Digit(n)] == [Digit(n)];
    } else {
      DecimalReadsBack(n / 10);
      ValueSnoc(Decimal(n / 10), Digit(n % 10));
    }
  }

  lemma NoDigits()
    ensures Value("") == 0
  {
  }

  /** The text opens with the number of omitted turns and their digest, in brackets. */
  lemma SummaryOpens(c: Compactor, omitted: seq<Turn>)
    ensures var opening := "[Deterministic context summary: " + Decimal(|omitted|) + " earlier turns; sha256=" + c.digest(omitted) + "]";
            opening <= SummaryText(c, omitted)
            && SummaryText(c, omitted) == Join([opening] + SummaryLines(omitted, c.maxSummary - |opening| - 1), "\n")
  {
    hide Decimal, SummaryLines;
    assert Header(c, omitted) <= SummaryText(c, omitted);
  }

  /** The lines are those of the first turns, in order and in full, except that the last may be cut short; and turns are
      left out, or a line cut, only when the room is used up. */
  ghost predicate UseTheRoom(lines: seq<string>, full: seq<string>, room: int) {
    && |lines| <= |full|
    && (forall i | 0 <= i < |lines| :: lines[i] <= full[i])
    && (forall i | 0 <= i < |lines| - 1 :: lines[i] == full[i])
    && (Extra(lines) >= room || lines == full)
  }

  function FullLines(omitted: seq<Turn>): seq<string> {
    seq(|omitted|, i requires 0 <= i < |omitted| => TurnLine(omitted[i]))
  }

  lemma OneMoreLine(line: string, later: seq<string>, full: seq<string>, room: int)
    requires room > 0
    ensures var kept := line[..Min(|line|, room)];
            UseTheRoom(later, full, room - |kept| - 1) && (|line| > room ==> later == []) ==>
              UseTheRoom([kept] + later, [line] + full, room)
  {
    var kept := line[..Min(|line|, room)];
    var lines, all := [kept] + later, [line] + full;
    assert lines[1..] == later;
    if UseTheRoom(later, full, room - |kept| - 1) && (|line| > room ==> later == []) {
      forall i | 0 <= i < |lines| ensures lines[i] <= all[i] && (i < |lines| - 1 ==> lines[i] == all[i]) {
        if i > 0 {
          assert lines[i] == later[i - 1] && all[i] == full[i - 1];
        }
      }
      if |line| <= room {
        assert kept == line;
      }
    }
  }

  lemma {:induction false} LinesUseTheRoom(omitted: seq<Turn>, room: int)
    ensures UseTheRoom(SummaryLines(omitted, room), FullLines(omitted), room)
    decreases |omitted|
  {
    hide TurnLine, UseTheRoom;
    if omitted == [] || room <= 0 {
      NoRoomLeft(FullLines(omitted), room);
    } else {
      var line := TurnLine(omitted[0]);
      var kept := line[..Min(|line|, room)];
      LinesUseTheRoom(omitted[1..], room - |kept| - 1);
      OneMoreLine(line, SummaryLines(omitted[1..], room - |kept| - 1), FullLines(omitted[1..]), room);
      assert FullLines(omitted) == [line] + FullLines(omitted[1..]);
    }
  }

  lemma NoRoomLeft(full: seq<string>, room: int)
    ensures full == [] || room <= 0 ==> UseTheRoom([], full, room)
  {
  }

  /** A turn of one block reads as its role and the block: a text as it is, and any other by its kind and its label. */
  lemma OneBlockLine(turn: Turn, block: Block)
    ensures turn.content == [block] ==>
              TurnLine(turn)
              == (match turn.role case System => "system: " case User => "user: " case Assistant => "assistant: " case Tool => "tool: ")
                 + match block
                   case Text(text) => text
                   case Image(mediaType, _) => "[image " + mediaType + "]"
                   case ToolCall(id, name, _) => "[tool call " + name + " id=" + id + "]"
                   case ToolResult(id, _, true) => "[tool result id=" + id + " error]"
                   case ToolResult(id, _, false) => "[tool result id=" + id + " completed]"
  {
    if turn.content == [block] {
      assert turn.content[1..] == [];
      var excerpt := BlockExcerpt(block);
      assert Excerpts(turn.content) == [excerpt] + [] == [excerpt];
      assert block.ToolResult? ==> " error]" == " " + "error" + "]" && " completed]" == " " + "completed" + "]";
    }
  }

  /** Several blocks are put on one line, a space between each two. */
  lemma {:induction false} BlocksOnOneLine(a: seq<Block>, b: seq<Block>)
    ensures Excerpts(a + b) == Excerpts(a) + Excerpts(b)
    ensures a != [] && b != [] ==> Join(Excerpts(a + b), " ") == Join(Excerpts(a), " ") + " " + Join(Excerpts(b), " ")
  {
    hide BlockExcerpt;
    if a == [] {
      assert a + b == b;
    } else {
      assert (a + b)[1..] == a[1..] + b;
      BlocksOnOneLine(a[1..], b);
      assert b != [] ==> Excerpts(b) != [];
      JoinAppend(Excerpts(a), Excerpts(b), " ");
    }
  }

  /** A line names the role and joins the blocks, and shows no image data, call arguments or tool output. */
  lemma LinesHidePayloads(turn: Turn, other: Turn)
    ensures turn.role == other.role && |turn.content| == |other.content|
            && (forall i | 0 <= i < |turn.content| :: Alike(turn.content[i], other.content[i])) ==>
              TurnLine(turn) == TurnLine(other)
  {
    if |turn.content| == |other.content| && forall i | 0 <= i < |turn.content| :: Alike(turn.content[i], other.content[i]) {
      ExcerptsAlike(turn.content, other.content);
    }
  }

  /** Blocks that differ in image data, call arguments or tool output at most. */
  predicate Alike(a: Block, b: Block) {
    || a == b
    || (a.Image? && b.Image? && a.mediaType == b.mediaType)
    || (a.ToolCall? && b.ToolCall? && a.id == b.id && a.name == b.name)
    || (a.ToolResult? && b.ToolResult? && a.id == b.id && a.isError == b.isError)
  }

  lemma {:induction false} ExcerptsAlike(a: seq<Block>, b: seq<Block>)
    ensures |a| == |b| && (forall i | 0 <= i < |a| :: Alike(a[i], b[i])) ==> Excerpts(a) == Excerpts(b)
  {
    if a == [] || b == [] {
    } else if |a| == |b| && forall i | 0 <= i < |a| :: Alike(a[i], b[i]) {
      assert Alike(a[0], b[0]);
      ExcerptsAlike(a[1..], b[1..]);
    }
  }
}
