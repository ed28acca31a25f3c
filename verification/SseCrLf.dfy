/**
 Frames printed with CR LF line ends: which chunk boundaries the reader can stand.
 */
module SseCrLf {
  import opened Wrappers
  import opened Lines
  import opened Sse
  import opened SseCuts

  /** The text with every line feed as CR LF. */
  function WithCr(text: string): string {
    if text == "" then "" else (if text[0] == '\n' then ['\r', '\n'] else [text[0]]) + WithCr(text[1..])
  }

  lemma {:induction false} WithCrAppend(a: string, b: string)
    ensures WithCr(a + b) == WithCr(a) + WithCr(b)
  {
    if a == "" {
      assert a + b == b;
    } else {
      assert (a + b)[1..] == a[1..] + b;
      WithCrAppend(a[1..], b);
    }
  }

  /** What a text without carriage returns is seen as, when it was printed with CR LF from position `p` on. */
  ghost function Recut(text: string, p: nat, cuts: iset<nat>): string
    decreases |text|
  {
    if text == "" then ""
    else if text[0] == '\n' then (if p + 1 in cuts then ['\r', '\n'] else ['\n']) + Recut(text[1..], p + 2, cuts)
    else [text[0]] + Recut(text[1..], p + 1, cuts)
  }

  lemma {:induction false} SeenIsRecut(before: string, text: string, cuts: iset<nat>)
    requires '\r' !in text
    ensures SeenFrom(before + WithCr(text), |before|, cuts) == Recut(text, |before|, cuts)
    decreases |text|
  {
    var whole := before + WithCr(text);
    if text != "" {
      if text[0] == '\n' {
        assert whole == (before + ['\r', '\n']) + WithCr(text[1..]);
        SeenIsRecut(before + ['\r', '\n'], text[1..], cuts);
        if |before| + 1 in cuts {
          assert SeenFrom(whole, |before| + 1, cuts) == ['\n'] + SeenFrom(whole, |before| + 2, cuts);
        }
      } else {
        assert whole == (before + [text[0]]) + WithCr(text[1..]);
        SeenIsRecut(before + [text[0]], text[1..], cuts);
      }
    } else {
      assert whole == before;
    }
  }

  lemma {:induction false} RecutAppend(a: string, b: string, p: nat, cuts: iset<nat>)
    ensures Recut(a + b, p, cuts) == Recut(a, p, cuts) + Recut(b, p + |WithCr(a)|, cuts)
    decreases |a|
  {
    if a == "" {
      assert a + b == b && "" + Recut(b, p, cuts) == Recut(b, p, cuts);
    } else {
      assert (a + b)[1..] == a[1..] + b;
      var width := if a[0] == '\n' then 2 else 1;
      RecutAppend(a[1..], b, p + width, cuts);
      Assoc(if width == 1 then [a[0]] else if p + 1 in cuts then ['\r', '\n'] else ['\n'],
            Recut(a[1..], p + width, cuts), Recut(b, p + |WithCr(a)|, cuts));
    }
  }

  lemma {:induction false} RecutUncut(text: string, p: nat)
    ensures Recut(text, p, iset{}) == text
    decreases |text|
  {
    if text == "" {
    } else {
      RecutUncut(text[1..], p + (if text[0] == '\n' then 2 else 1));
    }
  }

  // ---------- Blank lines of a printed text

  lemma {:induction false} BlankInText(text: string, q: nat)
    requires '\r' !in text && InBlank(WithCr(text), q)
    ensures exists i | 0 < i < |text| :: text[i - 1] == '\n' && text[i] == '\n' && q + 1 == |WithCr(text[..i + 1])|
    decreases |text|
  {
    var rest := text[1..];
    var width := if text[0] == '\n' then 2 else 1;
    if q >= width + 2 {
      assert InBlank(WithCr(rest), q - width);
      BlankInText(rest, q - width);
      var i :| 0 < i < |rest| && rest[i - 1] == '\n' && rest[i] == '\n' && q - width + 1 == |WithCr(rest[..i + 1])|;
      assert text[..i + 2][1..] == rest[..i + 1] && text[i] == '\n' && text[i + 1] == '\n';
      assert q + 1 == |WithCr(text[..(i + 1) + 1])|;
    } else {
      assert rest != "" && WithCr(rest)[0] == WithCr(text)[width];
      assert text[0] == '\n' && rest[0] == '\n';
      assert text[..2] == ['\n'] + ['\n'];
      WithCrAppend(['\n'], ['\n']);
      assert text[1 - 1] == '\n' && text[1] == '\n' && q + 1 == |WithCr(text[..1 + 1])|;
    }
  }

  lemma {:induction false} NoBlankInside(text: string, i: nat)
    requires FirstBlank(text).None? && 0 < i < |text|
    ensures !(text[i - 1] == '\n' && text[i] == '\n')
  {
    if i > 1 {
      NoBlankInside(text[1..], i - 1);
    }
  }

  /** The text up to and with frame `k`. */
  function Through(frames: seq<Printed>, k: nat): string
    requires k < |frames|
  {
    PrintAll(frames[..k + 1])
  }

  lemma PrintedStarts(frames: seq<Printed>)
    requires frames != []
    ensures Body(frames[0]) != "" && PrintAll(frames) != "" && PrintAll(frames)[0] == Body(frames[0])[0] != '\n'
  {
  }

  lemma ThroughStep(frames: seq<Printed>, k: nat)
    requires k < |frames|
    ensures Through(frames, k) == Print(frames[0]) + (if k == 0 then "" else Through(frames[1..], k - 1))
  {
    hide Print;
    assert frames[..k + 1][0] == frames[0] && frames[..k + 1][1..] == frames[1..][..k];
    if k == 0 {
      assert frames[1..][..k] == [];
      assert PrintAll(frames[..1]) == Print(frames[0]) + PrintAll([]);
    }
  }

  /** Two line feeds in a row close a frame. */
  lemma {:induction false} BlankClosesFrame(frames: seq<Printed>, i: nat)
    requires AllPrintable(frames) && 0 < i < |PrintAll(frames)|
    requires PrintAll(frames)[i - 1] == '\n' && PrintAll(frames)[i] == '\n'
    ensures exists k | 0 <= k < |frames| :: |Through(frames, k)| == i + 1
    decreases |frames|
  {
    hide Body, Printable, Through, Compact;
    var body, rest := Body(frames[0]), frames[1..];
    var text := PrintAll(frames);
    assert text == body + "\n\n" + PrintAll(rest);
    BodyIsCompact(frames[0]);
    if rest != [] {
      PrintedStarts(rest);
    }
    if i <= |body| {
      assert (body + "\n")[..i + 1] == text[..i + 1];
      NoBlankInside(body + "\n", i);
      assert false;
    } else if i == |body| + 1 {
      ThroughStep(frames, 0);
      assert |Through(frames, 0)| == i + 1;
    } else if i == |body| + 2 {
      assert false;
    } else {
      var j := i - |body| - 2;
      assert text[i] == PrintAll(rest)[j] && text[i - 1] == PrintAll(rest)[j - 1];
      BlankClosesFrame(rest, j);
      var k :| 0 <= k < |rest| && |Through(rest, k)| == j + 1;
      ThroughStep(frames, k + 1);
      assert |Through(frames, k + 1)| == i + 1;
    }
  }

  // ---------- Harmless cuts of a printed text

  /** Where a cut falls inside the CR LF that closes frame `k`. */
  function Closer(frames: seq<Printed>, k: nat): int
    requires k < |frames|
  {
    |WithCr(Through(frames, k))| - 1
  }

  /** No chunk boundary falls inside the closing CR LF of any frame but the last. */
  ghost predicate ClosersWhole(frames: seq<Printed>, p: nat, cuts: iset<nat>) {
    forall k | 0 <= k < |frames| - 1 :: p + Closer(frames, k) !in cuts
  }

  lemma PrefixEndsAlike(text: string, a: string, n: nat)
    requires n <= |text| && a <= text && |a| == n
    ensures a == text[..n]
  {
  }

  lemma {:induction false} ThroughIsPrefix(frames: seq<Printed>, k: nat)
    requires k < |frames|
    ensures Through(frames, k) <= PrintAll(frames) && (k == |frames| - 1 ==> Through(frames, k) == PrintAll(frames))
    decreases k
  {
    ThroughStep(frames, k);
    hide Through, Body;
    if k > 0 {
      ThroughIsPrefix(frames[1..], k - 1);
    } else if |frames| == 1 {
      assert PrintAll(frames[1..]) == "";
    }
  }

  lemma WholeClosersAreHarmless(frames: seq<Printed>, q: nat, cuts: iset<nat>)
    requires AllPrintable(frames) && ClosersWhole(frames, 0, cuts)
    requires q in cuts && InBlank(WithCr(PrintAll(frames)), q)
    ensures q + 1 == |WithCr(PrintAll(frames))|
  {
    hide Body, Printable, Through;
    var text := PrintAll(frames);
    PrintedHasNoCr(frames);
    BlankInText(text, q);
    var i :| 0 < i < |text| && text[i - 1] == '\n' && text[i] == '\n' && q + 1 == |WithCr(text[..i + 1])|;
    BlankClosesFrame(frames, i);
    var k :| 0 <= k < |frames| && |Through(frames, k)| == i + 1;
    ThroughIsPrefix(frames, k);
    PrefixEndsAlike(text, Through(frames, k), i + 1);
    assert Closer(frames, k) == q;
  }

  lemma PrintedUncut(frames: seq<Printed>)
    requires AllPrintable(frames)
    ensures SeenFrom(WithCr(PrintAll(frames)), 0, iset{}) == PrintAll(frames)
  {
    var text := PrintAll(frames);
    PrintedHasNoCr(frames);
    SeenIsRecut("", text, iset{});
    RecutUncut(text, 0);
    assert "" + WithCr(text) == WithCr(text);
  }

  // ---------- Harmful cuts lose events

  /** How many events a split text can have at most. */
  function Ends(split: Split): nat {
    |split.frames| + (if Strip(split.rest) != "" then 1 else 0)
  }

  lemma {:induction false} EventsWithinEnds(frames: seq<string>, rest: string)
    ensures |Events(Split(frames, rest))| <= Ends(Split(frames, rest))
  {
    if frames == [] {
    } else {
      EventsWithinEnds(frames[1..], rest);
    }
  }

  /** The frames that still end on their own. */
  ghost function Kept(frames: seq<Printed>, p: nat, cuts: iset<nat>): nat {
    if |frames| <= 1 then |frames|
    else (if p + Closer(frames, 0) in cuts then 0 else 1) + Kept(frames[1..], p + Closer(frames, 0) + 1, cuts)
  }

  lemma ClosersWholeStep(frames: seq<Printed>, p: nat, cuts: iset<nat>)
    requires |frames| > 1
    ensures var next := p + Closer(frames, 0) + 1;
            next >= 0
            && (ClosersWhole(frames, p, cuts) <==> next - 1 !in cuts && ClosersWhole(frames[1..], next, cuts))
  {
    hide Closer;
    CloserIsPosition(frames);
    var rest, next := frames[1..], p + Closer(frames, 0) + 1;
    forall k | 0 < k < |frames| ensures p + Closer(frames, k) == next + Closer(rest, k - 1) {
      CloserStep(frames, k);
    }
    if ClosersWhole(frames, p, cuts) {
      forall k | 0 <= k < |rest| - 1 ensures next + Closer(rest, k) !in cuts {
        assert p + Closer(frames, k + 1) == next + Closer(rest, k);
      }
    }
  }

  lemma {:induction false} KeptAllIff(frames: seq<Printed>, p: nat, cuts: iset<nat>)
    ensures Kept(frames, p, cuts) <= |frames|
    ensures Kept(frames, p, cuts) == |frames| <==> ClosersWhole(frames, p, cuts)
    decreases |frames|
  {
    hide Closer, ClosersWhole;
    if |frames| > 1 {
      ClosersWholeStep(frames, p, cuts);
      KeptAllIff(frames[1..], p + Closer(frames, 0) + 1, cuts);
    } else {
      FewClosersWhole(frames, p, cuts);
    }
  }

  lemma FewClosersWhole(frames: seq<Printed>, p: nat, cuts: iset<nat>)
    requires |frames| <= 1
    ensures ClosersWhole(frames, p, cuts)
  {
  }

  lemma CloserStep(frames: seq<Printed>, k: nat)
    requires 0 < k < |frames|
    ensures Closer(frames, k) == Closer(frames, 0) + 1 + Closer(frames[1..], k - 1)
  {
    ThroughStep(frames, k);
    ThroughStep(frames, 0);
    assert Print(frames[0]) + "" == Print(frames[0]);
    WithCrAppend(Print(frames[0]), Through(frames[1..], k - 1));
  }

  lemma {:induction false} JoinedHasNoBlank(a: string, b: string)
    requires FirstBlank(a).None? && FirstBlank(b).None?
    requires a == "" || b == "" || a[|a| - 1] != '\n' || b[0] != '\n'
    ensures FirstBlank(a + b).None?
  {
    if a == "" {
      assert a + b == b;
    } else {
      assert (a + b)[1..] == a[1..] + b;
      JoinedHasNoBlank(a[1..], b);
    }
  }

  lemma {:induction false} RecutHasNoBlank(text: string, p: nat, cuts: iset<nat>)
    requires FirstBlank(text).None?
    ensures FirstBlank(Recut(text, p, cuts)).None?
    ensures text != "" ==> var seen := Recut(text, p, cuts); seen != "" && (seen[0] == '\n' ==> text[0] == '\n')
    decreases |text|
  {
    if text == "" {
    } else {
      var width := if text[0] == '\n' then 2 else 1;
      RecutHasNoBlank(text[1..], p + width, cuts);
      var rest := Recut(text[1..], p + width, cuts);
      assert text[0] == '\n' && rest != "" ==> rest[0] != '\n';
      var first := if width == 1 then [text[0]] else if p + 1 in cuts then ['\r', '\n'] else ['\n'];
      JoinedHasNoBlank(first, rest);
    }
  }

  /** Unfinished frames before a text: no blank line, and a line feed at the end. */
  predicate Pending(glued: string) {
    glued == "" || (glued[|glued| - 1] == '\n' && FirstBlank(glued).None?)
  }

  /** One more body and its line end, seen with or without its CR. */
  lemma PendingBody(glued: string, frame: Printed, p: nat, cuts: iset<nat>)
    requires Printable(frame) && Pending(glued)
    ensures var line := Recut(Body(frame) + "\n", p, cuts);
            Pending(glued + line) && line != "" && FirstBlank(glued + line).None? && (glued + line)[|glued + line| - 1] == '\n'
  {
    hide Body, Recut, FirstBlank;
    var body := Body(frame);
    BodyIsCompact(frame);
    PrintedStarts([frame]);
    RecutHasNoBlank(body + "\n", p, cuts);
    RecutLine(body, "", p, cuts);
    RecutNothing(p + |WithCr(body + "\n")|, cuts);
    assert body + "\n" + "" == body + "\n";
    JoinedHasNoBlank(glued, Recut(body + "\n", p, cuts));
  }

  lemma RecutLine(line: string, rest: string, p: nat, cuts: iset<nat>)
    ensures var closer := p + |WithCr(line + "\n")| - 1;
            closer >= 0
            && Recut(line + "\n" + rest, p, cuts)
            == Recut(line, p, cuts) + (if closer in cuts then ['\r', '\n'] else ['\n']) + Recut(rest, closer + 1, cuts)
  {
    hide Recut, WithCr;
    WithCrAppend(line, "\n");
    LineFeedAlone(p + |WithCr(line)|, cuts);
    RecutAppend(line + "\n", rest, p, cuts);
    RecutAppend(line, "\n", p, cuts);
  }

  lemma LineFeedAlone(p: nat, cuts: iset<nat>)
    ensures WithCr("\n") == ['\r', '\n'] && Recut("\n", p, cuts) == if p + 1 in cuts then ['\r', '\n'] else ['\n']
  {
    assert "\n"[1..] == "";
  }

  lemma PrintedRecut(frames: seq<Printed>, p: nat, cuts: iset<nat>)
    requires frames != []
    ensures var closer := p + Closer(frames, 0);
            closer >= 0
            && Recut(PrintAll(frames), p, cuts)
            == Recut(Body(frames[0]) + "\n", p, cuts) + (if closer in cuts then ['\r', '\n'] else ['\n'])
               + Recut(PrintAll(frames[1..]), closer + 1, cuts)
  {
    hide Body, Recut, WithCr, Through;
    var line := Body(frames[0]) + "\n";
    ThroughStep(frames, 0);
    assert Print(frames[0]) == line + "\n" && Through(frames, 0) == line + "\n";
    RecutLine(line, PrintAll(frames[1..]), p, cuts);
  }

  lemma RecutNothing(p: nat, cuts: iset<nat>)
    ensures Recut("", p, cuts) == ""
  {
  }

  lemma EndsWithoutBlank(text: string)
    requires FirstBlank(text).None?
    ensures Ends(Blocks(text)) <= 1 && (text == "" ==> Ends(Blocks(text)) == 0)
  {
  }

  lemma EndsAfterLine(glued: string, rest: string)
    requires FirstBlank(glued).None? && glued != "" && glued[|glued| - 1] == '\n'
    ensures Ends(Blocks(glued + ['\n'] + rest)) == 1 + Ends(Blocks(rest))
  {
    hide FirstBlank, Strip;
    BlankAtLf(glued);
    FirstBlankExtends(glued + ['\n'], rest);
    assert (glued + ['\n'] + rest)[|glued| - 1 + 2..] == rest;
  }

  lemma {:induction false} GluedCount(glued: string, frames: seq<Printed>, p: nat, cuts: iset<nat>)
    requires AllPrintable(frames) && Pending(glued) && (frames == [] ==> glued == "")
    ensures Ends(Blocks(glued + Recut(PrintAll(frames), p, cuts))) <= Kept(frames, p, cuts)
    decreases |frames|
  {
    hide Body, Printable, Ends, Blocks, Recut, FirstBlank, Closer;
    if frames == [] {
      NothingRecut(p, cuts);
    } else {
      var closer := p + Closer(frames, 0);
      var line := Recut(Body(frames[0]) + "\n", p, cuts);
      PrintedRecut(frames, p, cuts);
      var rest := Recut(PrintAll(frames[1..]), closer + 1, cuts);
      PendingBody(glued, frames[0], p, cuts);
      var sofar := glued + line;
      if closer in cuts {
        NoBlankAtCr(sofar);
        assert glued + (line + ['\r', '\n'] + rest) == sofar + ['\r', '\n'] + rest;
        if |frames| == 1 {
          NothingRecut(closer + 1, cuts);
          assert sofar + ['\r', '\n'] + "" == sofar + ['\r', '\n'];
          EndsWithoutBlank(sofar + ['\r', '\n']);
        } else {
          GluedCount(sofar + ['\r', '\n'], frames[1..], closer + 1, cuts);
        }
      } else {
        assert glued + (line + ['\n'] + rest) == sofar + ['\n'] + rest;
        EndsAfterLine(sofar, rest);
        GluedCount("", frames[1..], closer + 1, cuts);
        assert "" + rest == rest;
      }
    }
  }

  lemma NothingRecut(p: nat, cuts: iset<nat>)
    ensures Recut(PrintAll([]), p, cuts) == "" && Ends(Blocks("" + Recut(PrintAll([]), p, cuts))) == 0
  {
  }

  lemma {:induction false} AsManyMeanings(frames: seq<Printed>)
    ensures |Meanings(frames)| == |frames|
  {
    if frames == [] {
    } else {
      AsManyMeanings(frames[1..]);
    }
  }

  lemma WholeClosersReadBack(frames: seq<Printed>, cuts: iset<nat>)
    requires AllPrintable(frames) && ClosersWhole(frames, 0, cuts)
    ensures Events(Blocks(SeenFrom(WithCr(PrintAll(frames)), 0, cuts))) == Meanings(frames)
  {
    hide PrintAll, WithCr, Events, Blocks, SeenFrom, ClosersWhole, InBlank;
    var text := WithCr(PrintAll(frames));
    forall q: nat | q in cuts && InBlank(text, q) ensures q + 1 == |text| {
      WholeClosersAreHarmless(frames, q, cuts);
    }
    HarmlessSeen(text, cuts);
    PrintedUncut(frames);
    PrintedReadsBack(frames);
  }

  lemma CutClosersLoseEvents(frames: seq<Printed>, cuts: iset<nat>)
    requires AllPrintable(frames) && !ClosersWhole(frames, 0, cuts)
    ensures |Events(Blocks(SeenFrom(WithCr(PrintAll(frames)), 0, cuts)))| < |Meanings(frames)|
  {
    hide PrintAll, WithCr, Events, Blocks, SeenFrom, ClosersWhole, Recut, Kept, Ends;
    var text := PrintAll(frames);
    KeptAllIff(frames, 0, cuts);
    PrintedHasNoCr(frames);
    SeenIsRecut("", text, cuts);
    assert "" + WithCr(text) == WithCr(text);
    GluedCount("", frames, 0, cuts);
    assert "" + Recut(text, 0, cuts) == Recut(text, 0, cuts);
    var split := Blocks(Recut(text, 0, cuts));
    EventsWithinEnds(split.frames, split.rest);
    AsManyMeanings(frames);
  }

  /**
   Frames printed with CR LF and cut into any chunks read back as their events exactly when no chunk boundary
   falls inside the CR LF of a closing blank line that another frame follows.
   */
  lemma CrLfReadsBackIff(frames: seq<Printed>, chunks: seq<string>)
    requires AllPrintable(frames) && Concat(chunks) == WithCr(PrintAll(frames))
    ensures SseEvents(chunks) == Meanings(frames) <==> forall k | 0 <= k < |frames| - 1 :: !CutAt(chunks, Closer(frames, k))
  {
    hide SeenFrom, Seen, CutAt, Closer, Events, Blocks, PrintAll, WithCr;
    var cuts := Cuts(chunks);
    SeenByCuts(chunks);
    ReaderIsChunkIndependent(chunks);
    CloserIsPosition(frames);
    assert ClosersWhole(frames, 0, cuts) <==> forall k | 0 <= k < |frames| - 1 :: !CutAt(chunks, Closer(frames, k));
    hide SseEvents;
    if ClosersWhole(frames, 0, cuts) {
      WholeClosersReadBack(frames, cuts);
    } else {
      CutClosersLoseEvents(frames, cuts);
    }
  }

  lemma CloserIsPosition(frames: seq<Printed>)
    ensures forall k | 0 <= k < |frames| :: Closer(frames, k) >= 0
  {
    forall k | 0 <= k < |frames| ensures Closer(frames, k) >= 0 {
      ThroughStep(frames, k);
    }
  }
}
