/** Python's `splitlines`, over characters or bytes. */
module Lines {
  import opened Wrappers

  /** Which symbols end a line; `cr` followed by `lf` ends one line, not two. */
  datatype LineRule<!T> = LineRule(breaks: T -> bool, cr: T, lf: T) {
    ghost predicate Valid() {
      cr != lf && breaks(cr) && breaks(lf)
    }
  }

  /** The position of the first line break, or the length. */
  function FirstBreak<T>(rule: LineRule<T>, text: seq<T>): (i: nat)
    ensures i <= |text|
    ensures i < |text| ==> rule.breaks(text[i])
    ensures forall j | 0 <= j < i :: !rule.breaks(text[j])
  {
    if text == [] || rule.breaks(text[0]) then 0 else 1 + FirstBreak(rule, text[1..])
  }

  function SplitLines<T(==)>(rule: LineRule<T>, text: seq<T>): seq<seq<T>>
    decreases |text|
  {
    var i := FirstBreak(rule, text);
    if text == [] then []
    else if i == |text| then [text]
    else
      var width := if text[i] == rule.cr && i + 1 < |text| && text[i + 1] == rule.lf then 2 else 1;
      [text[..i]] + SplitLines(rule, text[i + width..])
  }

  ghost predicate OneLine<T>(rule: LineRule<T>, text: seq<T>) {
    forall i | 0 <= i < |text| :: !rule.breaks(text[i])
  }

  lemma FirstBreakAt<T>(rule: LineRule<T>, line: seq<T>, rest: seq<T>)
    requires rule.Valid() && OneLine(rule, line)
    ensures FirstBreak(rule, line + [rule.lf] + rest) == |line|
  {
    var text := line + [rule.lf] + rest;
    assert text[|line|] == rule.lf;
    assert forall j | 0 <= j < |line| :: text[j] == line[j];
  }

  lemma SplitFirstLine<T>(rule: LineRule<T>, line: seq<T>, rest: seq<T>)
    requires rule.Valid() && OneLine(rule, line)
    ensures SplitLines(rule, line + [rule.lf] + rest) == [line] + SplitLines(rule, rest)
  {
    var text := line + [rule.lf] + rest;
    FirstBreakAt(rule, line, rest);
    assert text[..|line|] == line && text[|line| + 1..] == rest && text[|line|] == rule.lf;
  }

  lemma SplitStep<T>(rule: LineRule<T>, text: seq<T>)
    ensures text == [] ==> SplitLines(rule, text) == []
    ensures var i := FirstBreak(rule, text);
            && (text != [] && i == |text| ==> SplitLines(rule, text) == [text])
            && (i < |text| ==>
                  var width := if text[i] == rule.cr && i + 1 < |text| && text[i + 1] == rule.lf then 2 else 1;
                  SplitLines(rule, text) == [text[..i]] + SplitLines(rule, text[i + width..]))
  {
  }

  /** A line ends at any break; a carriage return that a line feed follows is not one on its own. */
  lemma SplitAtBreak<T>(rule: LineRule<T>, line: seq<T>, b: T, rest: seq<T>)
    ensures OneLine(rule, line) && rule.breaks(b) && !(b == rule.cr && rest != [] && rest[0] == rule.lf) ==>
              SplitLines(rule, line + ([b] + rest)) == [line] + SplitLines(rule, rest)
  {
    hide SplitLines, FirstBreak, OneLine;
    BreakIsFound(rule, line, [b] + rest);
    SplitStep(rule, line + ([b] + rest));
    Pieces(line, [b], rest);
  }

  /** A carriage return and a line feed together are one break. */
  lemma SplitAtCrLf<T>(rule: LineRule<T>, line: seq<T>, rest: seq<T>)
    ensures OneLine(rule, line) && rule.breaks(rule.cr) ==>
              SplitLines(rule, line + ([rule.cr, rule.lf] + rest)) == [line] + SplitLines(rule, rest)
  {
    hide SplitLines, FirstBreak, OneLine;
    BreakIsFound(rule, line, [rule.cr, rule.lf] + rest);
    SplitStep(rule, line + ([rule.cr, rule.lf] + rest));
    Pieces(line, [rule.cr, rule.lf], rest);
  }

  lemma Pieces<T>(a: seq<T>, b: seq<T>, c: seq<T>)
    ensures (a + (b + c))[..|a|] == a && (a + (b + c))[|a| + |b|..] == c
    ensures forall i | 0 <= i < |b + c| :: (a + (b + c))[|a| + i] == (b + c)[i]
  {
  }

  lemma BreakIsFound<T>(rule: LineRule<T>, line: seq<T>, rest: seq<T>)
    ensures OneLine(rule, line) && rest != [] && rule.breaks(rest[0]) ==> FirstBreak(rule, line + rest) == |line|
  {
    var text := line + rest;
    if rest != [] && rule.breaks(rest[0]) && OneLine(rule, line) {
      assert text[|line|] == rest[0];
      assert forall j | 0 <= j < |line| :: text[j] == line[j];
    }
  }

  lemma SplitLastLine<T>(rule: LineRule<T>, line: seq<T>)
    requires OneLine(rule, line)
    ensures SplitLines(rule, line) == if line == [] then [] else [line]
  {
    var i := FirstBreak(rule, line);
    assert i == |line|;
  }

  /** Every line followed by a line feed. */
  function Terminated<T>(rule: LineRule<T>, lines: seq<seq<T>>): seq<T> {
    if lines == [] then [] else lines[0] + [rule.lf] + Terminated(rule, lines[1..])
  }

  /** Splitting undoes termination. */
  lemma {:induction false} SplitTerminated<T>(rule: LineRule<T>, lines: seq<seq<T>>)
    requires rule.Valid() && forall l | l in lines :: OneLine(rule, l)
    ensures SplitLines(rule, Terminated(rule, lines)) == lines
  {
    if lines == [] {
    } else {
      SplitFirstLine(rule, lines[0], Terminated(rule, lines[1..]));
      SplitTerminated(rule, lines[1..]);
    }
  }

  lemma {:induction false} TerminatedAppend<T>(rule: LineRule<T>, a: seq<seq<T>>, b: seq<seq<T>>)
    ensures Terminated(rule, a + b) == Terminated(rule, a) + Terminated(rule, b)
  {
    if a == [] {
      assert a + b == b;
    } else {
      assert (a + b)[1..] == a[1..] + b;
      TerminatedAppend(rule, a[1..], b);
      Assoc(a[0] + [rule.lf], Terminated(rule, a[1..]), Terminated(rule, b));
    }
  }
}
