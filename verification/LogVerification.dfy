/**
 Exactly which files the audit log accepts, and what it appends.
 */
module LogVerification {
  import opened Wrappers
  import opened Lines
  import opened AuditLog

  /** Line `i` is within its bound and decodes to entry `i`. */
  ghost predicate Spells(codec: Codec, maxEvent: nat, lines: seq<Bytes>, entries: seq<Entry>) {
    && |lines| == |entries|
    && forall i | 0 <= i < |lines| :: |lines[i]| < maxEvent && codec.decode(lines[i]) == Some(entries[i])
  }

  lemma SpellsSnoc(codec: Codec, maxEvent: nat, lines: seq<Bytes>, line: Bytes, entries: seq<Entry>, entry: Entry)
    ensures Spells(codec, maxEvent, lines + [line], entries + [entry])
       <==> Spells(codec, maxEvent, lines, entries) && |line| < maxEvent && codec.decode(line) == Some(entry)
  {
    var all, more := lines + [line], entries + [entry];
    if Spells(codec, maxEvent, all, more) {
      assert all[|lines|] == line && more[|entries|] == entry;
      forall i | 0 <= i < |lines| ensures |lines[i]| < maxEvent && codec.decode(lines[i]) == Some(entries[i]) {
        assert all[i] == lines[i] && more[i] == entries[i];
      }
    }
  }

  lemma {:induction false} CheckedIffChain(codec: Codec, maxEvent: nat, lines: seq<Bytes>, entries: seq<Entry>)
    ensures CheckLines(codec, maxEvent, lines) == Ok(entries) <==> Spells(codec, maxEvent, lines, entries) && Chain(codec, entries)
    decreases |lines|
  {
    hide Chain, Spells;
    if lines == [] || entries == [] {
      NothingSpelled(codec, maxEvent, lines, entries);
      VerifiedIsChain(codec, maxEvent, lines);
    } else {
      var front, last := lines[..|lines| - 1], lines[|lines| - 1];
      var before, entry := entries[..|entries| - 1], entries[|entries| - 1];
      assert lines == front + [last] && entries == before + [entry];
      CheckedIffChain(codec, maxEvent, front, before);
      SpellsSnoc(codec, maxEvent, front, last, before, entry);
      ChainSnoc(codec, before, entry);
      LastChecked(codec, maxEvent, front, last, before, entry);
    }
  }

  lemma NothingSpelled(codec: Codec, maxEvent: nat, lines: seq<Bytes>, entries: seq<Entry>)
    ensures lines == [] || entries == [] ==>
              (Spells(codec, maxEvent, lines, entries) <==> lines == [] && entries == []) && Chain(codec, [])
  {
  }

  lemma LastChecked(codec: Codec, maxEvent: nat, front: seq<Bytes>, last: Bytes, before: seq<Entry>, entry: Entry)
    ensures CheckLines(codec, maxEvent, front + [last]) == Ok(before + [entry])
       <==> CheckLines(codec, maxEvent, front) == Ok(before)
            && CheckLine(codec, maxEvent, last, |before|, HashAfter(before)) == Ok(entry)
  {
    hide CheckLine;
    assert (front + [last])[..|front|] == front;
    var checked := CheckLines(codec, maxEvent, front);
    if checked.Ok? && CheckLines(codec, maxEvent, front + [last]).Ok? {
      var e := CheckLine(codec, maxEvent, last, |checked.value|, HashAfter(checked.value)).value;
      if checked.value + [e] == before + [entry] {
        assert (checked.value + [e])[..|before|] == before && (before + [entry])[|before|] == entry;
      }
    }
  }

  /** A file verifies to a list of entries exactly when it is not too large, is empty or ends in a line feed, and its lines
      spell out, each within its bound, a chain of just those entries. */
  lemma VerifiesIffChain(codec: Codec, maxEvent: nat, maxLog: nat, file: Bytes, entries: seq<Entry>)
    ensures Verify(codec, maxEvent, maxLog, file) == Ok(entries)
       <==> |file| <= maxLog && (file == [] || file[|file| - 1] == LF)
            && Spells(codec, maxEvent, SplitLines(BYTE_LINES, file), entries) && Chain(codec, entries)
  {
    CheckedIffChain(codec, maxEvent, SplitLines(BYTE_LINES, file), entries);
  }

  /** What is appended: the body given, the next number, the digest of the entry before or 64 zeros, and its own digest. */
  lemma AppendedEntryLinks(codec: Codec, entries: seq<Entry>, body: string)
    ensures var next := NextEntry(codec, entries, body);
            && next.event.body == body && next.event.sequence == |entries|
            && (entries != [] ==> next.previous == entries[|entries| - 1].sha)
            && (entries == [] ==> next.previous == "0000000000000000000000000000000000000000000000000000000000000000")
            && next.sha == codec.digest(next.event, next.previous)
            && (Chain(codec, entries) <==> Chain(codec, entries + [next]))
  {
    ChainSnoc(codec, entries, NextEntry(codec, entries, body));
    hide Chain;
  }

  /** The bounded read, on any bytes: nothing of an empty file; else the file must end a record, and the last line within
      the bound must follow another line when the bound cuts the file, and decode. */
  lemma TailReadOfAnyFile(codec: Codec, maxEvent: nat, file: Bytes, entry: Entry)
    ensures LastEntry(codec, maxEvent, file) == Ok(None) <==> file == []
    ensures file != [] && file[|file| - 1] != LF ==> LastEntry(codec, maxEvent, file) == Err(PartialRecord)
    ensures LastEntry(codec, maxEvent, file) == Ok(Some(entry))
       <==> && file != [] && file[|file| - 1] == LF
            && var cut := |file| > maxEvent;
               var lines := SplitLines(BYTE_LINES, if cut then file[|file| - maxEvent..] else file);
               |lines| >= (if cut then 2 else 1) && codec.decode(lines[|lines| - 1]) == Some(entry)
  {
    hide SplitLines;
    assert file[0..] == file;
  }

  /** Each error names something that is wrong with the line. */
  lemma LineErrorsAreTrue(codec: Codec, maxEvent: nat, line: Bytes, sequence: nat, previous: string)
    ensures match CheckLine(codec, maxEvent, line, sequence, previous)
            case Ok(entry) => codec.decode(line) == Some(entry)
            case Err(RecordTooLarge) => |line| >= maxEvent
            case Err(BadSchema) => codec.decode(line) == None
            case Err(BadSequence) => codec.decode(line).Some? && codec.decode(line).value.event.sequence != sequence
            case Err(BrokenChain) => codec.decode(line).Some? && codec.decode(line).value.previous != previous
            case Err(BadDigest) => codec.decode(line).Some? && codec.decode(line).value.sha
                                                               != codec.digest(codec.decode(line).value.event, previous)
            case Err(_) => false
  {
  }
}
