/**
 How the reader cuts any text into frames and what it makes of any frame.
 */
module SseFrames {
  import opened Wrappers
  import opened Lines
  import opened Sse

  // ---------- Cutting

  ghost predicate BlankAt(text: string, i: int) {
    0 <= i < |text| - 1 && text[i] == '\n' && text[i + 1] == '\n'
  }

  /** The first two line feeds in a row, if there are any. */
  lemma {:induction false} FirstBlankIsFirst(text: string)
    ensures match FirstBlank(text)
            case None => forall i :: !BlankAt(text, i)
            case Some(i) => BlankAt(text, i) && forall j | 0 <= j < i :: !BlankAt(text, j)
  {
    if |text| < 2 {
    } else if !(text[0] == '\n' && text[1] == '\n') {
      FirstBlankIsFirst(text[1..]);
      assert forall i | i >= 1 :: BlankAt(text, i) <==> BlankAt(text[1..], i - 1);
    }
  }

  /** The frames, each with the blank line that closes it. */
  function Closed(frames: seq<string>): string {
    if frames == [] then "" else frames[0] + "\n\n" + Closed(frames[1..])
  }

  ghost predicate NoBlank(text: string) {
    forall i :: !BlankAt(text, i)
  }

  ghost predicate ClosesAtOnce(frame: string) {
    NoBlank(frame + "\n")
  }

  lemma FrontClosesAtOnce(text: string, i: nat)
    ensures FirstBlank(text) == Some(i) ==>
              i + 2 <= |text| && ClosesAtOnce(text[..i]) && text == text[..i] + "\n\n" + text[i + 2..]
  {
    FirstBlankIsFirst(text);
    hide FirstBlank;
    if FirstBlank(text) == Some(i) {
      var front := text[..i + 1];
      assert text[..i] + "\n" == front;
      forall j ensures !BlankAt(front, j) {
        assert BlankAt(front, j) ==> BlankAt(text, j);
      }
    }
  }

  lemma ClosedCons(frame: string, frames: seq<string>, rest: string)
    ensures Closed([frame] + frames) + rest == frame + "\n\n" + (Closed(frames) + rest)
  {
    assert ([frame] + frames)[1..] == frames;
    Assoc(frame + "\n\n", Closed(frames), rest);
  }

  /** A text is cut at its blank lines and nowhere else: the frames with their blank lines, and the rest, make the text
      again; no frame has a blank line before its end, and the rest has none. */
  lemma {:induction false} CutAtBlankLines(text: string)
    ensures var split := Blocks(text);
            && Closed(split.frames) + split.rest == text && NoBlank(split.rest)
            && forall k | 0 <= k < |split.frames| :: ClosesAtOnce(split.frames[k])
    decreases |text|
  {
    hide FirstBlank, NoBlank, ClosesAtOnce, Closed;
    match FirstBlank(text) {
      case None =>
        NoBlankIsLeft(text);
      case Some(i) =>
        FrontClosesAtOnce(text, i);
        CutAtBlankLines(text[i + 2..]);
        var later := Blocks(text[i + 2..]);
        ClosedCons(text[..i], later.frames, later.rest);
    }
  }

  lemma NoBlankIsLeft(text: string)
    ensures FirstBlank(text).None? ==> NoBlank(text) && Closed([]) + text == text
  {
    FirstBlankIsFirst(text);
  }

  // ---------- Fields

  lemma {:induction false} FieldsAppend(a: seq<string>, b: seq<string>)
    ensures FieldsOf(a + b).data == FieldsOf(a).data + FieldsOf(b).data
    ensures FieldsOf(a + b).event == if HasEvent(b) then FieldsOf(b).event else FieldsOf(a).event
    decreases |b|
  {
    hide Strip, StripLeft;
    if b == [] {
      assert a + b == a;
    } else {
      var front, last := b[..|b| - 1], b[|b| - 1];
      assert (a + b)[..|a + b| - 1] == a + front;
      FieldsAppend(a, front);
      HasEventSnoc(front, last);
      assert b == front + [last];
    }
  }

  ghost predicate HasEvent(lines: seq<string>) {
    exists i | 0 <= i < |lines| :: "event:" <= lines[i]
  }

  lemma HasEventSnoc(front: seq<string>, last: string)
    ensures HasEvent(front + [last]) <==> HasEvent(front) || "event:" <= last
  {
    var all := front + [last];
    assert all[|front|] == last && forall i | 0 <= i < |front| :: all[i] == front[i];
  }

  /** A data line adds one line of data, in its place, without the spaces in front; an event line gives the name, trimmed,
      unless a later one does; comments and lines of any other kind count for nothing. */
  lemma EachLineCounts(a: seq<string>, line: string, b: seq<string>)
    ensures FieldsOf([]) == Fields("message", [])
    ensures FieldsOf(a + [line] + b).data
         == FieldsOf(a).data + (if "data:" <= line then [StripLeft(line[5..])] else []) + FieldsOf(b).data
    ensures FieldsOf(a + [line] + b).event
         == if HasEvent(b) then FieldsOf(b).event else if "event:" <= line then Strip(line[6..]) else FieldsOf(a).event
    ensures !("data:" <= line) && !("event:" <= line) ==> FieldsOf(a + [line] + b) == FieldsOf(a + b)
  {
    hide Strip, StripLeft;
    FieldsAppend(a + [line], b);
    FieldsAppend(a, [line]);
    FieldsAppend(a, b);
    assert [line][..0] == [];
    HasEventSnoc([], line);
    assert [] + [line] == [line];
    assert "event:" <= line ==> !("data:" <= line) by { OnePrefix(line); }
  }

  lemma OnePrefix(line: string)
    ensures "event:" <= line ==> line[0] == 'e'
    ensures "data:" <= line ==> line[0] == 'd'
  {
  }

  /** A frame is an event exactly when it has a data line; its data lines are joined by line feeds. */
  lemma FrameIsItsFields(frame: string)
    ensures var fields := FieldsOf(SplitLines(TEXT_LINES, frame));
            && (fields.data == [] ==> FrameEvents(frame) == [])
            && (fields.data != [] ==> FrameEvents(frame) == [Event(fields.event, Join(fields.data, "\n"))])
  {
    hide FieldsOf, SplitLines;
  }

  // ---------- Trimming

  ghost predicate Blank(text: string) {
    forall i | 0 <= i < |text| :: IsSpace(text[i])
  }

  lemma BlankCons(text: string, k: nat)
    ensures k < |text| && IsSpace(text[0]) && Blank(text[1..][..k]) ==> Blank(text[..k + 1]) && text[1..][k..] == text[k + 1..]
  {
    hide IsSpace;
    if k < |text| {
      assert text[..k + 1] == [text[0]] + text[1..][..k];
    }
  }

  lemma {:induction false} LeftTrimmed(text: string) returns (k: nat)
    ensures k <= |text| && StripLeft(text) == text[k..] && Blank(text[..k]) && (k < |text| ==> !IsSpace(text[k]))
  {
    hide IsSpace, Blank;
    if text != "" && IsSpace(text[0]) {
      var n := LeftTrimmed(text[1..]);
      BlankCons(text, n);
      k := n + 1;
    } else {
      k := 0;
      NothingIsBlank();
      assert text[0..] == text && text[..0] == "";
    }
  }

  lemma NothingIsBlank()
    ensures Blank("")
  {
  }

  lemma BlankSnoc(text: string, k: nat)
    ensures k < |text| && IsSpace(text[|text| - 1]) && Blank(text[..|text| - 1][k..]) ==>
              Blank(text[k..]) && text[..|text| - 1][..k] == text[..k]
  {
    hide IsSpace;
    if k < |text| {
      assert text[k..] == text[..|text| - 1][k..] + [text[|text| - 1]];
    }
  }

  lemma {:induction false} RightTrimmed(text: string) returns (k: nat)
    ensures k <= |text| && StripRight(text) == text[..k] && Blank(text[k..]) && (k > 0 ==> !IsSpace(text[k - 1]))
  {
    hide IsSpace, Blank;
    if text != "" && IsSpace(text[|text| - 1]) {
      k := RightTrimmed(text[..|text| - 1]);
      BlankSnoc(text, k);
    } else {
      k := |text|;
      NothingIsBlank();
      assert text[..|text|] == text && text[|text|..] == "";
    }
  }

  /** Trimming takes the spaces off both ends and nothing else. */
  lemma TrimmedOnBothEnds(text: string) returns (i: nat, k: nat)
    ensures i <= k <= |text| && Strip(text) == text[i..k] && Blank(text[..i]) && Blank(text[k..])
    ensures i < k ==> !IsSpace(text[i]) && !IsSpace(text[k - 1])
  {
    hide IsSpace, StripLeft, StripRight, Blank;
    i := LeftTrimmed(text);
    var n := RightTrimmed(text[i..]);
    k := i + n;
    assert text[i..][..n] == text[i..k] && text[i..][n..] == text[k..];
  }

  // ---------- Printing

  /** The text of a frame, letter by letter; a name that is not safe to print is left out. */
  lemma FramesArePrinted(name: string, data: string)
    ensures Print(Data(data)) == "data: " + data + "\n\n"
    ensures Print(EventData(name, data)) == "event: " + name + "\n" + "data: " + data + "\n\n"
    ensures Print(SafeFrame(name, data))
         == (if IsName(name) && name != "message" then "event: " + name + "\n" else "") + "data: " + data + "\n\n"
  {
    hide IsName;
    assert EventLine(name) + ['\n'] + DataLine(data) == "event: " + name + "\n" + "data: " + data;
    assert "" + ("data: " + data + "\n\n") == "data: " + data + "\n\n";
  }

  /** A safe name is 1 to 64 characters long and has no space or line break. */
  lemma SafeNamesArePlain(name: string, i: nat)
    ensures IsName(name) ==> 1 <= |name| <= 64
    ensures IsName(name) && i < |name| ==> name[i] !in " \n\r" && (name[i] in "_.:-" || '0' <= name[i] <= 'z')
  {
    assert IsName(name) && i < |name| ==> IsNameChar(name[i]);
  }
}
