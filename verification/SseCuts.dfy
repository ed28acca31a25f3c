/**
 What a chunk boundary inside a CR LF does to the events: it is harmless unless the CR LF makes a blank line
 with text after it, and for printed frames that is exactly when events are lost.
 */
module SseCuts {
  import opened Wrappers
  import opened Lines
  import opened Sse

  // ---------- Cuts as positions in the whole text

  ghost predicate CutAt(chunks: seq<string>, p: nat) {
    exists k | 0 <= k <= |chunks| :: |Concat(chunks[..k])| == p
  }

  ghost function Cuts(chunks: seq<string>): iset<nat> {
    iset p: nat | CutAt(chunks, p)
  }

  /** The seen text from position `p` on: a CR LF loses its CR unless it is cut. */
  ghost function SeenFrom(text: string, p: nat, cuts: iset<nat>): string
    requires p <= |text|
    decreases |text| - p
  {
    if p == |text| then ""
    else if text[p] == '\r' && p + 1 < |text| && text[p + 1] == '\n' && p + 1 !in cuts then ['\n'] + SeenFrom(text, p + 2, cuts)
    else [text[p]] + SeenFrom(text, p + 1, cuts)
  }

  lemma {:induction false} SeenOfChunk(text: string, p: nat, chunk: string, cuts: iset<nat>)
    requires p + |chunk| <= |text| && text[p..p + |chunk|] == chunk
    requires p + |chunk| in cuts && forall q | p < q < p + |chunk| :: q !in cuts
    ensures SeenFrom(text, p, cuts) == Normalize(chunk) + SeenFrom(text, p + |chunk|, cuts)
    decreases |chunk|
  {
    if chunk == "" {
      assert "" + SeenFrom(text, p, cuts) == SeenFrom(text, p, cuts);
    } else {
      assert text[p] == chunk[0];
      var width := if chunk[0] == '\r' && |chunk| >= 2 && chunk[1] == '\n' then 2 else 1;
      assert |chunk| >= 2 ==> text[p + 1] == chunk[1];
      assert text[p + width..p + |chunk|] == chunk[width..];
      SeenOfChunk(text, p + width, chunk[width..], cuts);
      Assoc(if width == 2 then ['\n'] else [chunk[0]], Normalize(chunk[width..]), SeenFrom(text, p + |chunk|, cuts));
    }
  }

  lemma CutsOfRest(chunks: seq<string>, q: nat)
    requires chunks != []
    ensures q >= |chunks[0]| ==> (CutAt(chunks, q) <==> CutAt(chunks[1..], q - |chunks[0]|))
    ensures 0 < q < |chunks[0]| ==> !CutAt(chunks, q)
    ensures CutAt(chunks, |chunks[0]|)
  {
    var first, rest := chunks[0], chunks[1..];
    forall k | 0 <= k < |chunks| ensures |Concat(chunks[..k + 1])| == |first| + |Concat(rest[..k])| {
      assert chunks[..k + 1] == [first] + rest[..k];
      ConcatAppend([first], rest[..k]);
      ConcatOne(first);
    }
    assert chunks[..0] == [] && rest[..0] == [];
    assert |Concat(chunks[..0 + 1])| == |first| + |Concat(rest[..0])|;
    if CutAt(chunks, q) {
      var k :| 0 <= k <= |chunks| && |Concat(chunks[..k])| == q;
      if k > 0 {
        assert |Concat(chunks[..(k - 1) + 1])| == |first| + |Concat(rest[..k - 1])|;
      }
    }
    if q >= |first| && CutAt(rest, q - |first|) {
      var k :| 0 <= k <= |rest| && |Concat(rest[..k])| == q - |first|;
      assert |Concat(chunks[..k + 1])| == q;
    }
  }

  /** From `base` on the cuts are where the chunks meet. */
  ghost predicate Agree(cuts: iset<nat>, base: nat, chunks: seq<string>) {
    forall q: nat | q >= base :: q in cuts <==> CutAt(chunks, q - base)
  }

  lemma AgreeOnRest(cuts: iset<nat>, base: nat, chunks: seq<string>)
    requires chunks != [] && Agree(cuts, base, chunks)
    ensures Agree(cuts, base + |chunks[0]|, chunks[1..]) && base + |chunks[0]| in cuts
    ensures forall q: nat | base < q < base + |chunks[0]| :: q !in cuts
  {
    hide CutAt;
    forall q: nat | q >= base
      ensures q >= base + |chunks[0]| ==> (q in cuts <==> CutAt(chunks[1..], q - base - |chunks[0]|))
      ensures base < q < base + |chunks[0]| ==> q !in cuts
    {
      CutsOfRest(chunks, q - base);
    }
    CutsOfRest(chunks, |chunks[0]|);
  }

  lemma SliceStep(text: string, p: nat, a: string, b: string)
    requires p <= |text| && text[p..] == a + b
    ensures p + |a| <= |text| && text[p..p + |a|] == a && text[p + |a|..] == b
  {
    assert text[p..][..|a|] == a && text[p..][|a|..] == b;
  }

  lemma {:induction false} SeenOfRest(text: string, p: nat, chunks: seq<string>, cuts: iset<nat>)
    requires p <= |text| && text[p..] == Concat(chunks) && Agree(cuts, p, chunks)
    ensures SeenFrom(text, p, cuts) == Seen(chunks)
    decreases |chunks|
  {
    hide Agree, SeenFrom, Normalize;
    if chunks == [] {
      assert p == |text|;
      SeenAtEnd(text, cuts);
    } else {
      var chunk, rest := chunks[0], chunks[1..];
      AgreeOnRest(cuts, p, chunks);
      SliceStep(text, p, chunk, Concat(rest));
      hide Concat;
      SeenOfRest(text, p + |chunk|, rest, cuts);
      SeenOfChunk(text, p, chunk, cuts);
    }
  }

  lemma SeenAtEnd(text: string, cuts: iset<nat>)
    ensures SeenFrom(text, |text|, cuts) == ""
  {
  }

  lemma SeenByCuts(chunks: seq<string>)
    ensures Seen(chunks) == SeenFrom(Concat(chunks), 0, Cuts(chunks))
  {
    assert Concat(chunks)[0..] == Concat(chunks);
    SeenOfRest(Concat(chunks), 0, chunks, Cuts(chunks));
  }

  lemma {:induction false} NormalizeIsUncut(text: string, p: nat)
    requires p <= |text|
    ensures SeenFrom(text, p, iset{}) == Normalize(text[p..])
    decreases |text| - p
  {
    if p == |text| {
    } else {
      var width := if text[p] == '\r' && p + 1 < |text| && text[p + 1] == '\n' then 2 else 1;
      assert text[p..][width..] == text[p + width..];
      NormalizeIsUncut(text, p + width);
    }
  }

  // ---------- Texts that differ by carriage returns that matter to no event

  /**
   `plain` is `loose` without some carriage returns before line feeds, none of which follows a line feed;
   `fed` says whether a line feed comes just before.
   */
  ghost predicate Loose(loose: string, plain: string, fed: bool)
    decreases |loose|
  {
    if loose == "" then plain == ""
    else
      || (plain != "" && loose[0] == plain[0] && Loose(loose[1..], plain[1..], loose[0] == '\n'))
      || (plain != "" && plain[0] == '\n' && |loose| >= 2 && loose[0] == '\r' && loose[1] == '\n'
          && !fed && Loose(loose[2..], plain[1..], true))
  }

  /** A cut at `q` falls inside a CR LF that directly follows a line feed. */
  predicate InBlank(text: string, q: nat) {
    2 <= q < |text| && text[q - 2] == '\n' && text[q - 1] == '\r' && text[q] == '\n'
  }

  ghost predicate KeepsBlanks(text: string, cuts: iset<nat>) {
    forall q: nat | q in cuts :: !InBlank(text, q)
  }

  lemma {:induction false} SeenIsLoose(text: string, p: nat, cuts: iset<nat>)
    requires p <= |text| && KeepsBlanks(text, cuts)
    ensures Loose(SeenFrom(text, p, cuts), SeenFrom(text, p, iset{}), p > 0 && text[p - 1] == '\n')
    decreases |text| - p
  {
    hide KeepsBlanks, Loose;
    if p == |text| {
      NothingIsLoose(p > 0 && text[p - 1] == '\n');
    } else {
      if text[p] == '\r' && p + 1 < |text| && text[p + 1] == '\n' {
        SeenIsLoose(text, p + 2, cuts);
        if p + 1 in cuts {
          NotInBlank(text, cuts, p + 1);
          SeenWhenCut(text, p, cuts);
          CrIsLoose(SeenFrom(text, p + 2, cuts), SeenFrom(text, p + 2, iset{}));
        } else {
          CharIsLoose('\n', SeenFrom(text, p + 2, cuts), SeenFrom(text, p + 2, iset{}), p > 0 && text[p - 1] == '\n');
        }
      } else {
        SeenIsLoose(text, p + 1, cuts);
        CharIsLoose(text[p], SeenFrom(text, p + 1, cuts), SeenFrom(text, p + 1, iset{}), p > 0 && text[p - 1] == '\n');
      }
    }
  }

  lemma NotInBlank(text: string, cuts: iset<nat>, q: nat)
    requires KeepsBlanks(text, cuts) && q in cuts
    ensures !InBlank(text, q)
  {
  }

  lemma SeenWhenCut(text: string, p: nat, cuts: iset<nat>)
    requires p + 1 < |text| && text[p] == '\r' && text[p + 1] == '\n' && p + 1 in cuts
    ensures SeenFrom(text, p, cuts) == ['\r', '\n'] + SeenFrom(text, p + 2, cuts)
  {
    assert SeenFrom(text, p + 1, cuts) == ['\n'] + SeenFrom(text, p + 2, cuts);
  }

  lemma NothingIsLoose(fed: bool)
    ensures Loose("", "", fed)
  {
  }

  lemma CharIsLoose(c: char, loose: string, plain: string, fed: bool)
    requires Loose(loose, plain, c == '\n')
    ensures Loose([c] + loose, [c] + plain, fed)
  {
    assert ([c] + loose)[1..] == loose && ([c] + plain)[1..] == plain;
  }

  lemma CrIsLoose(loose: string, plain: string)
    requires Loose(loose, plain, true)
    ensures Loose(['\r', '\n'] + loose, ['\n'] + plain, false)
  {
    assert (['\r', '\n'] + loose)[2..] == loose && (['\n'] + plain)[1..] == plain;
  }

  /** Field by field over a text, as splitting into lines and folding does. */
  function Fold(fields: Fields, lines: seq<string>): Fields
    decreases |lines|
  {
    if lines == [] then fields else Fold(AddLine(fields, lines[0]), lines[1..])
  }

  lemma {:induction false} FoldAppend(fields: Fields, lines: seq<string>, line: string)
    ensures Fold(fields, lines + [line]) == AddLine(Fold(fields, lines), line)
    decreases |lines|
  {
    hide AddLine;
    if lines == [] {
      assert ([] + [line])[1..] == [];
    } else {
      assert (lines + [line])[1..] == lines[1..] + [line];
      FoldAppend(AddLine(fields, lines[0]), lines[1..], line);
    }
  }

  lemma {:induction false} FieldsAreFolded(lines: seq<string>)
    ensures FieldsOf(lines) == Fold(Fields("message", []), lines)
  {
    hide AddLine;
    if lines == [] {
    } else {
      var front, last := lines[..|lines| - 1], lines[|lines| - 1];
      assert lines == front + [last];
      FieldsAreFolded(front);
      FoldAppend(Fields("message", []), front, last);
    }
  }

  function Scan(fields: Fields, text: string): Fields {
    Fold(fields, SplitLines(TEXT_LINES, text))
  }

  function Width(text: string, i: nat): nat
    requires i < |text|
  {
    if text[i] == '\r' && i + 1 < |text| && text[i + 1] == '\n' then 2 else 1
  }

  lemma FoldOne(fields: Fields, line: string, lines: seq<string>)
    ensures Fold(fields, [line] + lines) == Fold(AddLine(fields, line), lines)
  {
    hide AddLine;
    assert ([line] + lines)[1..] == lines;
  }

  lemma ScanStep(fields: Fields, text: string)
    ensures text == "" ==> Scan(fields, text) == fields
    ensures var i := FirstBreak(TEXT_LINES, text);
            && (text != "" && i == |text| ==> Scan(fields, text) == AddLine(fields, text))
            && (i < |text| ==> Scan(fields, text) == Scan(AddLine(fields, text[..i]), text[i + Width(text, i)..]))
  {
    hide AddLine, SplitLines, FirstBreak;
    var i := FirstBreak(TEXT_LINES, text);
    SplitStep(TEXT_LINES, text);
    if text != "" && i == |text| {
      assert [text] + [] == [text];
      FoldOne(fields, text, []);
    } else if i < |text| {
      FoldOne(fields, text[..i], SplitLines(TEXT_LINES, text[i + Width(text, i)..]));
    }
  }

  lemma EmptyLineAddsNothing(fields: Fields)
    ensures AddLine(fields, "") == fields
  {
  }

  /** Up to the first line break nothing differs. */
  lemma {:induction false} LooseLine(loose: string, plain: string, fed: bool) returns (after: bool)
    requires Loose(loose, plain, fed)
    ensures var i := FirstBreak(TEXT_LINES, loose);
            && i == FirstBreak(TEXT_LINES, plain) && loose[..i] == plain[..i] && (i == |loose| <==> i == |plain|)
            && Loose(loose[i..], plain[i..], after)
    decreases |loose|
  {
    after := fed;
    if loose == "" || TEXT_LINES.breaks(loose[0]) {
      assert loose[0..] == loose && plain[0..] == plain;
    } else {
      assert loose[0] == plain[0] && Loose(loose[1..], plain[1..], false);
      hide Loose;
      after := LooseLine(loose[1..], plain[1..], false);
      var i := FirstBreak(TEXT_LINES, loose[1..]);
      TailAgrees(loose, i);
      TailAgrees(plain, i);
    }
  }

  lemma TailAgrees(text: string, i: nat)
    requires i + 1 <= |text|
    ensures text[1..][i..] == text[i + 1..] && text[..i + 1] == [text[0]] + text[1..][..i]
  {
  }

  lemma {:induction false} ScanLoose(fields: Fields, loose: string, plain: string, fed: bool)
    requires Loose(loose, plain, fed)
    ensures Scan(fields, loose) == Scan(fields, plain)
    decreases |loose|
  {
    hide AddLine, Scan, Loose, FirstBreak;
    var after := LooseLine(loose, plain, fed);
    ScanStep(fields, loose);
    ScanStep(fields, plain);
    var i := FirstBreak(TEXT_LINES, loose);
    if i < |loose| {
      var added := AddLine(fields, loose[..i]);
      ScanLooseBreak(added, loose[i..], plain[i..], after);
      assert loose[i..][Width(loose, i)..] == loose[i + Width(loose, i)..];
      assert plain[i..][Width(plain, i)..] == plain[i + Width(plain, i)..];
    } else {
      assert loose[..i] == loose && plain[..i] == plain;
    }
  }

  lemma {:induction false} ScanLooseBreak(fields: Fields, loose: string, plain: string, fed: bool)
    requires Loose(loose, plain, fed) && loose != "" && TEXT_LINES.breaks(loose[0])
    ensures plain != "" && Scan(fields, loose[Width(loose, 0)..]) == Scan(fields, plain[Width(plain, 0)..])
    decreases |loose|, 0
  {
    hide AddLine, Scan;
    if plain[0] == loose[0] && Loose(loose[1..], plain[1..], loose[0] == '\n') {
      if loose[0] == '\r' && |plain| >= 2 && plain[1] == '\n' && loose[1] == '\r' {
        assert loose[1..][1] == '\n' && Loose(loose[1..][2..], plain[1..][1..], true);
        ScanLoose(fields, loose[3..], plain[2..], true);
        ScanStep(fields, loose[1..]);
        EmptyLineAddsNothing(fields);
        assert loose[1..][..0] == "" && loose[1..][2..] == loose[3..];
      } else if loose[0] == '\r' && |loose| >= 2 && loose[1] == '\n' {
        assert loose[1..][1..] == loose[2..] && plain[1..][1..] == plain[2..];
        ScanLoose(fields, loose[2..], plain[2..], true);
      } else {
        ScanLoose(fields, loose[1..], plain[1..], loose[0] == '\n');
      }
    } else {
      ScanLoose(fields, loose[2..], plain[1..], true);
    }
  }

  /** A line break at the end adds nothing. */
  lemma {:induction false} ScanTerminated(fields: Fields, text: string, c: char)
    requires c == '\n' || c == '\r'
    ensures Scan(fields, text + [c]) == Scan(fields, text)
    decreases |text|
  {
    hide AddLine, Scan, FirstBreak;
    var whole, i := text + [c], FirstBreak(TEXT_LINES, text);
    ScanStep(fields, whole);
    ScanStep(fields, text);
    FirstBreakBefore(text, c);
    if i == |text| {
      EmptyLineAddsNothing(fields);
      assert whole[..i] == text && whole[i + 1..] == "";
      ScanStep(AddLine(fields, text), "");
    } else {
      var rest := text[i + Width(text, i)..];
      assert whole[..i] == text[..i];
      if text[i] == '\r' && i + 1 == |text| && c == '\n' {
        assert whole[i + 2..] == "" && rest == "";
      } else {
        assert whole[i + Width(whole, i)..] == rest + [c];
        ScanTerminated(AddLine(fields, text[..i]), rest, c);
      }
    }
  }

  lemma {:induction false} FirstBreakBefore(text: string, c: char)
    requires c == '\n' || c == '\r'
    ensures FirstBreak(TEXT_LINES, text + [c]) == FirstBreak(TEXT_LINES, text)
  {
    if text == "" {
    } else {
      assert (text + [c])[1..] == text[1..] + [c];
      FirstBreakBefore(text[1..], c);
    }
  }

  lemma EventsByScan(frame: string)
    ensures var fields := Scan(Fields("message", []), frame);
            FrameEvents(frame) == if fields.data == [] then [] else [Event(fields.event, Join(fields.data, "\n"))]
  {
    FieldsAreFolded(SplitLines(TEXT_LINES, frame));
  }

  lemma LooseFramesAgree(loose: string, plain: string, fed: bool)
    requires Loose(loose, plain, fed) || Loose(loose + "\n", plain + "\n", fed)
    ensures FrameEvents(loose) == FrameEvents(plain)
  {
    hide FrameEvents, Scan, Loose;
    EventsByScan(loose);
    EventsByScan(plain);
    var start := Fields("message", []);
    if Loose(loose, plain, fed) {
      ScanLoose(start, loose, plain, fed);
    } else {
      ScanLoose(start, loose + "\n", plain + "\n", fed);
      ScanTerminated(start, loose, '\n');
      ScanTerminated(start, plain, '\n');
    }
  }

  // ---------- Blank lines fall in the same places

  ghost predicate CutAlike(loose: string, plain: string, fed: bool) {
    match (FirstBlank(loose), FirstBlank(plain))
    case (Some(i), Some(j)) =>
      && i + 2 <= |loose| && j + 2 <= |plain|
      && Loose(loose[..i] + "\n", plain[..j] + "\n", fed)
      && Loose(loose[i + 2..], plain[j + 2..], true)
    case (None, None) => true
    case _ => false
  }

  lemma {:induction false} LooseCutsAlike(loose: string, plain: string, fed: bool)
    requires Loose(loose, plain, fed)
    ensures CutAlike(loose, plain, fed)
    decreases |loose|
  {
    if loose == "" {
    } else {
      if loose[0] == plain[0] && Loose(loose[1..], plain[1..], loose[0] == '\n') {
        LooseCutsAlike(loose[1..], plain[1..], loose[0] == '\n');
        CutAfterOne(loose, plain, fed);
      } else {
        var x, y := loose[1..], plain;
        assert x[1..] == loose[2..];
        LooseCutsAlike(x, y, false);
        CutAfterCr(loose, plain);
      }
    }
  }

  lemma CutAfterOne(loose: string, plain: string, fed: bool)
    requires loose != "" && plain != "" && loose[0] == plain[0]
    requires Loose(loose[1..], plain[1..], loose[0] == '\n') && CutAlike(loose[1..], plain[1..], loose[0] == '\n')
    ensures CutAlike(loose, plain, fed)
  {
    if FirstBlank(loose) == Some(0) {
      assert Loose("\n", "\n", fed) by { assert Loose("", "", true); }
      assert loose[..0] + "\n" == "\n" && plain[..0] + "\n" == "\n";
      assert loose[1..][1..] == loose[2..] && plain[1..][1..] == plain[2..];
    } else if FirstBlank(loose).Some? {
      var i, j := FirstBlank(loose).value, FirstBlank(plain).value;
      var x, y := loose[..i] + "\n", plain[..j] + "\n";
      assert x[1..] == loose[1..][..i - 1] + "\n" && y[1..] == plain[1..][..j - 1] + "\n";
    }
  }

  lemma CutAfterCr(loose: string, plain: string)
    requires |loose| >= 2 && loose[0] == '\r' && loose[1] == '\n' && plain != "" && plain[0] == '\n'
    requires CutAlike(loose[1..], plain, false)
    ensures CutAlike(loose, plain, false)
  {
    if FirstBlank(loose).Some? {
      var i, j := FirstBlank(loose).value, FirstBlank(plain).value;
      var x, y := loose[..i] + "\n", plain[..j] + "\n";
      assert loose[1..][i + 1..] == loose[i + 2..];
      assert x[1..] == loose[1..][..i - 1] + "\n" && x[2..] == x[1..][1..];
    }
  }

  ghost predicate AllSpace(text: string) {
    forall i | 0 <= i < |text| :: IsSpace(text[i])
  }

  lemma {:induction false} StripRightKeeps(text: string)
    ensures StripRight(text) == "" ==> AllSpace(text)
  {
    if text == "" {
    } else {
      StripRightKeeps(text[..|text| - 1]);
    }
  }

  lemma {:induction false} StripLeftKeeps(text: string)
    requires AllSpace(StripLeft(text))
    ensures AllSpace(text)
  {
    hide IsSpace;
    if text != "" && IsSpace(text[0]) {
      StripLeftKeeps(text[1..]);
      assert text == [text[0]] + text[1..];
    }
  }

  lemma {:induction false} ScanSpace(fields: Fields, text: string)
    requires AllSpace(text)
    ensures Scan(fields, text) == fields
    decreases |text|
  {
    hide Scan, SplitLines, FirstBreak, IsSpace, AddLine;
    ScanStep(fields, text);
    if text == "" {
    } else {
      var i := FirstBreak(TEXT_LINES, text);
      assert text[..|text|] == text;
      SpaceAddsNothing(fields, text[..i]);
      if i < |text| {
        ScanSpace(fields, text[i + Width(text, i)..]);
      }
    }
  }

  lemma SpaceAddsNothing(fields: Fields, line: string)
    requires AllSpace(line)
    ensures AddLine(fields, line) == fields
  {
    assert line == "" || IsSpace(line[0]);
    assert line == "" || (line[0] != 'e' && line[0] != 'd');
  }

  /** An unterminated frame counts whether or not it is blank: a blank one has no event. */
  lemma EventsOfRest(rest: string)
    ensures Events(Split([], rest)) == FrameEvents(rest)
  {
    if Strip(rest) == "" {
      StripRightKeeps(StripLeft(rest));
      StripLeftKeeps(rest);
      ScanSpace(Fields("message", []), rest);
      EventsByScan(rest);
    }
    hide FrameEvents;
    assert [] + FrameEvents(rest) == FrameEvents(rest);
  }

  lemma EventsAtBlank(text: string, i: nat)
    requires FirstBlank(text) == Some(i)
    ensures Events(Blocks(text)) == FrameEvents(text[..i]) + Events(Blocks(text[i + 2..]))
  {
    hide FrameEvents, Events, EventsOf, FirstBlank;
    EventsAppend([text[..i]], Blocks(text[i + 2..]));
    EventsOfOne(text[..i]);
  }

  lemma EventsWithoutBlank(text: string)
    requires FirstBlank(text).None?
    ensures Events(Blocks(text)) == FrameEvents(text)
  {
    EventsOfRest(text);
  }

  lemma EventsOfOne(frame: string)
    ensures EventsOf([frame]) == FrameEvents(frame)
  {
    hide FrameEvents;
    assert [frame][1..] == [] && FrameEvents(frame) + [] == FrameEvents(frame);
  }

  lemma {:induction false} LooseReadsAlike(loose: string, plain: string, fed: bool)
    requires Loose(loose, plain, fed)
    ensures Events(Blocks(loose)) == Events(Blocks(plain))
    decreases |loose|
  {
    hide FrameEvents, Events, Blocks, Loose, FirstBlank;
    LooseCutsAlike(loose, plain, fed);
    if FirstBlank(loose).Some? {
      var i, j := FirstBlank(loose).value, FirstBlank(plain).value;
      EventsAtBlank(loose, i);
      EventsAtBlank(plain, j);
      LooseFramesAgree(loose[..i], plain[..j], fed);
      LooseReadsAlike(loose[i + 2..], plain[j + 2..], true);
    } else {
      EventsWithoutBlank(loose);
      EventsWithoutBlank(plain);
      LooseFramesAgree(loose, plain, fed);
    }
  }

  // ---------- A line break at the end of the text

  lemma {:induction false} NoBlankAtCr(text: string)
    requires FirstBlank(text).None?
    ensures FirstBlank(text + ['\r', '\n']).None?
  {
    var whole := text + ['\r', '\n'];
    if text == "" {
      assert whole[1..] == ['\n'];
    } else {
      assert whole[1..] == text[1..] + ['\r', '\n'];
      NoBlankAtCr(text[1..]);
    }
  }

  lemma {:induction false} BlankAtLf(text: string)
    requires FirstBlank(text).None?
    ensures FirstBlank(text + ['\n']) == if text != "" && text[|text| - 1] == '\n' then Some(|text| - 1) else None
  {
    var whole := text + ['\n'];
    if |text| >= 2 {
      assert whole[1..] == text[1..] + ['\n'];
      BlankAtLf(text[1..]);
    } else if |text| == 1 {
      assert whole[1..] == ['\n'];
    }
  }

  lemma FrameTerminated(frame: string, c: char)
    requires c == '\n' || c == '\r'
    ensures FrameEvents(frame + [c]) == FrameEvents(frame)
  {
    EventsByScan(frame + [c]);
    EventsByScan(frame);
    ScanTerminated(Fields("message", []), frame, c);
  }

  lemma RestThenCrLf(rest: string)
    requires FirstBlank(rest).None?
    ensures Events(Blocks(rest + ['\r', '\n'])) == FrameEvents(rest)
  {
    hide FrameEvents, Events, Blocks, FirstBlank;
    NoBlankAtCr(rest);
    EventsWithoutBlank(rest + ['\r', '\n']);
    FrameTerminated(rest, '\r');
    FrameTerminated(rest + ['\r'], '\n');
    assert rest + ['\r'] + ['\n'] == rest + ['\r', '\n'];
  }

  lemma RestThenLf(rest: string)
    requires FirstBlank(rest).None?
    ensures Events(Blocks(rest + ['\n'])) == FrameEvents(rest)
  {
    hide FrameEvents, Events, Blocks, FirstBlank;
    BlankAtLf(rest);
    FrameTerminated(rest, '\n');
    if rest != "" && rest[|rest| - 1] == '\n' {
      var front, whole := rest[..|rest| - 1], rest + ['\n'];
      EventsAtBlank(whole, |rest| - 1);
      FrameTerminated(front, '\n');
      assert front + ['\n'] == rest && whole[..|rest| - 1] == front && whole[|rest| + 1..] == "";
      NothingLeft();
      assert FrameEvents(front) + [] == FrameEvents(front);
    } else {
      EventsWithoutBlank(rest + ['\n']);
    }
  }

  lemma {:induction false} TextTerminated(text: string)
    ensures Events(Blocks(text + ['\n'])) == Events(Blocks(text)) && Events(Blocks(text + ['\r', '\n'])) == Events(Blocks(text))
    decreases |text|
  {
    var split := Blocks(text);
    RestHasNoBlank(text);
    BlocksExtend(text, ['\n']);
    BlocksExtend(text, ['\r', '\n']);
    EventsAppend(split.frames, Blocks(split.rest + ['\n']));
    EventsAppend(split.frames, Blocks(split.rest + ['\r', '\n']));
    EventsAppend(split.frames, Split([], split.rest));
    EventsOfRest(split.rest);
    assert split.frames + [] == split.frames;
    hide Events, FrameEvents, EventsOf;
    RestThenLf(split.rest);
    RestThenCrLf(split.rest);
  }

  // ---------- Cuts that no event notices

  lemma {:induction false} SeenFromSnoc(text: string, p: nat, cuts: iset<nat>)
    requires p <= |text|
    ensures SeenFrom(text + ['\r', '\n'], p, cuts)
         == SeenFrom(text, p, cuts) + (if |text| + 1 in cuts then ['\r', '\n'] else ['\n'])
    decreases |text| - p
  {
    var whole := text + ['\r', '\n'];
    var last := if |text| + 1 in cuts then ['\r', '\n'] else ['\n'];
    if p == |text| {
      assert SeenFrom(whole, p + 2, cuts) == "" && "" + last == last;
      if p + 1 in cuts {
        assert SeenFrom(whole, p + 1, cuts) == ['\n'] + "";
      }
    } else {
      var width := if text[p] == '\r' && p + 1 < |text| && text[p + 1] == '\n' && p + 1 !in cuts then 2 else 1;
      SeenFromSnoc(text, p + width, cuts);
      Assoc(if width == 2 then ['\n'] else [text[p]], SeenFrom(text, p + width, cuts), last);
    }
  }

  /** No chunk boundary falls inside a CR LF that directly follows a line feed, except at the end of the text. */
  ghost predicate CutsHarmlessly(chunks: seq<string>) {
    forall q: nat | CutAt(chunks, q) && InBlank(Concat(chunks), q) :: q + 1 == |Concat(chunks)|
  }

  lemma HarmlessSeen(text: string, cuts: iset<nat>)
    requires forall q: nat | q in cuts && InBlank(text, q) :: q + 1 == |text|
    ensures Events(Blocks(SeenFrom(text, 0, cuts))) == Events(Blocks(SeenFrom(text, 0, iset{})))
  {
    hide Events, Blocks, Loose, SeenFrom;
    if |text| >= 1 && |text| - 1 in cuts && InBlank(text, |text| - 1) {
      var front := text[..|text| - 2];
      assert text == front + ['\r', '\n'];
      assert KeepsBlanks(front, cuts) by {
        forall q: nat | q in cuts ensures !InBlank(front, q) {
          assert InBlank(front, q) ==> InBlank(text, q);
        }
      }
      SeenIsLoose(front, 0, cuts);
      LooseReadsAlike(SeenFrom(front, 0, cuts), SeenFrom(front, 0, iset{}), false);
      SeenFromSnoc(front, 0, cuts);
      SeenFromSnoc(front, 0, iset{});
      TextTerminated(SeenFrom(front, 0, cuts));
      TextTerminated(SeenFrom(front, 0, iset{}));
    } else {
      SeenIsLoose(text, 0, cuts);
      LooseReadsAlike(SeenFrom(text, 0, cuts), SeenFrom(text, 0, iset{}), false);
    }
  }

  /** Such a stream reads like the whole text in one chunk. */
  lemma HarmlessCutsReadAlike(chunks: seq<string>)
    requires CutsHarmlessly(chunks)
    ensures SseEvents(chunks) == SseEvents([Concat(chunks)])
  {
    var text := Concat(chunks);
    HarmlessSeen(text, Cuts(chunks));
    SeenByCuts(chunks);
    ReaderIsChunkIndependent(chunks);
    WholeReads(text);
  }

  lemma WholeReads(text: string)
    ensures SseEvents([text]) == Events(Blocks(SeenFrom(text, 0, iset{})))
  {
    ReaderIsChunkIndependent([text]);
    NormalizeIsUncut(text, 0);
    assert text[0..] == text;
    hide Events, Blocks;
    assert [text][1..] == [] && Normalize(text) + "" == Normalize(text);
  }
}
