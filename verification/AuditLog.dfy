/**
 The append-only audit log: one encoded entry a line, each chained to the one before by
 a digest. The JSON codec and SHA-256 are functions given to the log.
 */
module AuditLog {
  import opened Wrappers
  import opened Lines

  const ZERO_HASH := "0000000000000000000000000000000000000000000000000000000000000000"

  const LF: byte := 10
  const CR: byte := 13

  const BYTE_LINES := LineRule((b: byte) => b == LF || b == CR, CR, LF)

  /** `body` stands for every field of the event except its sequence number. */
  datatype Event = Event(sequence: nat, body: string)

  datatype Entry = Entry(event: Event, previous: string, sha: string)

  datatype AuditError = LogTooLarge | PartialRecord | RecordTooLarge | BadSchema | BadSequence | BrokenChain | BadDigest | LogFull

  datatype Codec = Codec(encode: Entry -> Bytes, decode: Bytes -> Option<Entry>, digest: (Event, string) -> string) {
    /** Encoding is one nonempty line, and decoding undoes it. */
    ghost predicate Valid() {
      forall e :: decode(encode(e)) == Some(e) && OneLine(BYTE_LINES, encode(e)) && encode(e) != []
    }

    /** The digest determines what it digests. */
    ghost predicate Injective() {
      forall e, p, e', p' :: digest(e, p) == digest(e', p') ==> e == e' && p == p'
    }
  }

  // ---------- Chains of entries

  function HashAfter(entries: seq<Entry>): string {
    if entries == [] then ZERO_HASH else entries[|entries| - 1].sha
  }

  ghost predicate Chain(codec: Codec, entries: seq<Entry>) {
    forall i | 0 <= i < |entries| ::
      && entries[i].event.sequence == i
      && entries[i].previous == HashAfter(entries[..i])
      && entries[i].sha == codec.digest(entries[i].event, entries[i].previous)
  }

  function NextEntry(codec: Codec, entries: seq<Entry>, body: string): Entry {
    var event := Event(|entries|, body);
    Entry(event, HashAfter(entries), codec.digest(event, HashAfter(entries)))
  }

  function Encoded(codec: Codec, entries: seq<Entry>): (lines: seq<Bytes>)
    ensures |lines| == |entries|
  {
    if entries == [] then [] else [codec.encode(entries[0])] + Encoded(codec, entries[1..])
  }

  function LogOf(codec: Codec, entries: seq<Entry>): Bytes {
    Terminated(BYTE_LINES, Encoded(codec, entries))
  }

  function Width(codec: Codec, entry: Entry): nat {
    |codec.encode(entry)| + 1
  }

  lemma {:induction false} EncodedAppend(codec: Codec, a: seq<Entry>, b: seq<Entry>)
    ensures Encoded(codec, a + b) == Encoded(codec, a) + Encoded(codec, b)
  {
    if a == [] {
      assert a + b == b;
    } else {
      assert (a + b)[1..] == a[1..] + b;
      EncodedAppend(codec, a[1..], b);
    }
  }

  lemma {:induction false} EncodedAreLines(codec: Codec, entries: seq<Entry>)
    requires codec.Valid()
    ensures forall l | l in Encoded(codec, entries) :: OneLine(BYTE_LINES, l)
  {
    if entries == [] {
    } else {
      EncodedAreLines(codec, entries[1..]);
      assert OneLine(BYTE_LINES, codec.encode(entries[0]));
    }
  }

  lemma LogOfSnoc(codec: Codec, entries: seq<Entry>, entry: Entry)
    ensures LogOf(codec, entries + [entry]) == LogOf(codec, entries) + (codec.encode(entry) + [LF])
  {
    EncodedAppend(codec, entries, [entry]);
    assert Encoded(codec, [entry]) == [codec.encode(entry)] by { assert [entry][1..] == []; }
    TerminatedAppend(BYTE_LINES, Encoded(codec, entries), [codec.encode(entry)]);
    assert Terminated(BYTE_LINES, [codec.encode(entry)]) == codec.encode(entry) + [LF] by {
      assert [codec.encode(entry)][1..] == [];
      assert codec.encode(entry) + [LF] + [] == codec.encode(entry) + [LF];
    }
  }

  // ---------- The bounded read of the last entry

  function LastEntry(codec: Codec, maxEvent: nat, file: Bytes): Result<Option<Entry>, AuditError> {
    if file == [] then Ok(None)
    else if file[|file| - 1] != LF then Err(PartialRecord)
    else
      var start := if |file| > maxEvent then |file| - maxEvent else 0;
      var lines := SplitLines(BYTE_LINES, file[start..]);
      if lines == [] || (start > 0 && |lines| < 2) then Err(RecordTooLarge)
      else match codec.decode(lines[|lines| - 1])
        case None => Err(BadSchema)
        case Some(entry) => Ok(Some(entry))
  }

  /** The lines left when reading starts at byte `k`. */
  function TailLines(lines: seq<Bytes>, k: nat): seq<Bytes>
    requires k <= |Terminated(BYTE_LINES, lines)|
  {
    if lines == [] then []
    else if k <= |lines[0]| then [lines[0][k..]] + lines[1..]
    else TailLines(lines[1..], k - |lines[0]| - 1)
  }

  lemma {:induction false} TailOfLog(lines: seq<Bytes>, k: nat)
    requires k <= |Terminated(BYTE_LINES, lines)|
    requires forall l | l in lines :: OneLine(BYTE_LINES, l)
    ensures Terminated(BYTE_LINES, lines)[k..] == Terminated(BYTE_LINES, TailLines(lines, k))
    ensures k < |Terminated(BYTE_LINES, lines)| ==> TailLines(lines, k) != []
    ensures forall l | l in TailLines(lines, k) :: OneLine(BYTE_LINES, l)
  {
    if lines == [] {
    } else {
      var first, rest := lines[0] + [LF], Terminated(BYTE_LINES, lines[1..]);
      assert Terminated(BYTE_LINES, lines) == first + rest;
      if k <= |lines[0]| {
        var tail := TailLines(lines, k);
        assert tail[0] == lines[0][k..] && tail[1..] == lines[1..];
        assert OneLine(BYTE_LINES, lines[0][k..]) by { assert OneLine(BYTE_LINES, lines[0]); }
        assert (first + rest)[k..] == first[k..] + rest && first[k..] == lines[0][k..] + [LF];
      } else {
        assert (first + rest)[k..] == rest[k - |first|..];
        TailOfLog(lines[1..], k - |first|);
      }
    }
  }

  lemma ShortRecordIsFound(codec: Codec, maxEvent: nat, entries: seq<Entry>, last: Entry)
    requires codec.Valid() && maxEvent >= 1
    requires Width(codec, last) < maxEvent || |LogOf(codec, entries + [last])| <= maxEvent
    ensures LastEntry(codec, maxEvent, LogOf(codec, entries + [last])) == Ok(Some(last))
  {
    var before, line := LogOf(codec, entries), codec.encode(last);
    var file := before + (line + [LF]);
    var start := if |file| > maxEvent then |file| - maxEvent else 0;
    LogOfSnoc(codec, entries, last);
    assert |file| == |before| + |line| + 1 && start <= |before|;
    var tail := TailLines(Encoded(codec, entries), start);
    EncodedAreLines(codec, entries);
    assert OneLine(BYTE_LINES, line) && codec.decode(line) == Some(last);
    TailOfLog(Encoded(codec, entries), start);
    TailThenLine(tail, line);
    assert file[start..] == before[start..] + (line + [LF]);
    LastLineRead(codec, maxEvent, file, tail, line);
  }

  lemma LastLineRead(codec: Codec, maxEvent: nat, file: Bytes, tail: seq<Bytes>, line: Bytes)
    requires file != [] && file[|file| - 1] == LF
    requires var start := if |file| > maxEvent then |file| - maxEvent else 0;
             SplitLines(BYTE_LINES, file[start..]) == tail + [line] && (start > 0 ==> tail != [])
    requires codec.decode(line).Some?
    ensures LastEntry(codec, maxEvent, file) == Ok(codec.decode(line))
  {
    hide SplitLines;
    assert (tail + [line])[|tail + [line]| - 1] == line;
  }

  lemma LongRecordIsRefused(codec: Codec, maxEvent: nat, entries: seq<Entry>, last: Entry)
    requires codec.Valid() && maxEvent >= 1
    requires Width(codec, last) >= maxEvent && |LogOf(codec, entries + [last])| > maxEvent
    ensures LastEntry(codec, maxEvent, LogOf(codec, entries + [last])) == Err(RecordTooLarge)
  {
    var before, line := LogOf(codec, entries), codec.encode(last);
    var file := before + (line + [LF]);
    LogOfSnoc(codec, entries, last);
    var start := |file| - maxEvent;
    var cut := line[start - |before|..];
    assert OneLine(BYTE_LINES, line);
    assert file[start..] == cut + [LF] + [];
    SplitFirstLine(BYTE_LINES, cut, []);
  }

  /** The bounded read finds the true last entry exactly when that entry's record is strictly
      shorter than the bound, or the whole log is within it. */
  lemma TailReadFindsTheLast(codec: Codec, maxEvent: nat, entries: seq<Entry>, last: Entry)
    requires codec.Valid() && maxEvent >= 1
    ensures var file := LogOf(codec, entries + [last]);
            LastEntry(codec, maxEvent, file) == Ok(Some(last)) <==> Width(codec, last) < maxEvent || |file| <= maxEvent
  {
    hide LastEntry;
    if Width(codec, last) < maxEvent || |LogOf(codec, entries + [last])| <= maxEvent {
      ShortRecordIsFound(codec, maxEvent, entries, last);
    } else {
      LongRecordIsRefused(codec, maxEvent, entries, last);
    }
  }

  lemma TailThenLine(tail: seq<Bytes>, line: Bytes)
    requires forall l | l in tail :: OneLine(BYTE_LINES, l)
    requires OneLine(BYTE_LINES, line)
    ensures SplitLines(BYTE_LINES, Terminated(BYTE_LINES, tail) + (line + [LF])) == tail + [line]
  {
    TerminatedAppend(BYTE_LINES, tail, [line]);
    assert Terminated(BYTE_LINES, [line]) == line + [LF] by {
      assert [line][1..] == [] && line + [LF] + [] == line + [LF];
    }
    SplitTerminated(BYTE_LINES, tail + [line]);
  }

  // ---------- Verification of the whole log

  function CheckLine(codec: Codec, maxEvent: nat, line: Bytes, sequence: nat, previous: string): Result<Entry, AuditError> {
    if |line| + 1 > maxEvent then Err(RecordTooLarge)
    else match codec.decode(line)
      case None => Err(BadSchema)
      case Some(entry) =>
        if entry.event.sequence != sequence then Err(BadSequence)
        else if entry.previous != previous then Err(BrokenChain)
        else if entry.sha != codec.digest(entry.event, previous) then Err(BadDigest)
        else Ok(entry)
  }

  function CheckLines(codec: Codec, maxEvent: nat, lines: seq<Bytes>): Result<seq<Entry>, AuditError> {
    if lines == [] then Ok([])
    else match CheckLines(codec, maxEvent, lines[..|lines| - 1])
      case Err(e) => Err(e)
      case Ok(entries) =>
        match CheckLine(codec, maxEvent, lines[|lines| - 1], |entries|, HashAfter(entries))
        case Err(e) => Err(e)
        case Ok(entry) => Ok(entries + [entry])
  }

  function Verify(codec: Codec, maxEvent: nat, maxLog: nat, file: Bytes): Result<seq<Entry>, AuditError> {
    if |file| > maxLog then Err(LogTooLarge)
    else if file != [] && file[|file| - 1] != LF then Err(PartialRecord)
    else CheckLines(codec, maxEvent, SplitLines(BYTE_LINES, file))
  }

  lemma ChainSnoc(codec: Codec, entries: seq<Entry>, last: Entry)
    ensures Chain(codec, entries + [last])
       <==> Chain(codec, entries)
            && last.event.sequence == |entries| && last.previous == HashAfter(entries)
            && last.sha == codec.digest(last.event, last.previous)
  {
    var all := entries + [last];
    assert forall i | 0 <= i < |entries| :: all[i] == entries[i] && all[..i] == entries[..i];
    assert all[|entries|] == last && all[..|entries|] == entries;
    if Chain(codec, all) {
      forall i | 0 <= i < |entries|
        ensures entries[i].event.sequence == i && entries[i].previous == HashAfter(entries[..i])
                && entries[i].sha == codec.digest(entries[i].event, entries[i].previous)
      {
        assert all[i] == entries[i];
      }
    }
  }

  /** Whatever verifies is a chain. */
  lemma {:induction false} VerifiedIsChain(codec: Codec, maxEvent: nat, lines: seq<Bytes>)
    ensures match CheckLines(codec, maxEvent, lines)
            case Ok(entries) => Chain(codec, entries) && |entries| == |lines|
            case Err(_) => true
  {
    if lines == [] {
    } else {
      var front, last := lines[..|lines| - 1], lines[|lines| - 1];
      VerifiedIsChain(codec, maxEvent, front);
      if CheckLines(codec, maxEvent, lines).Ok? {
        var entries := CheckLines(codec, maxEvent, front).value;
        var entry := CheckLine(codec, maxEvent, last, |entries|, HashAfter(entries)).value;
        ChainSnoc(codec, entries, entry);
      }
    }
  }

  ghost predicate AllWithin(codec: Codec, entries: seq<Entry>, maxEvent: nat) {
    forall i | 0 <= i < |entries| :: Width(codec, entries[i]) <= maxEvent
  }

  lemma EncodedSnoc(codec: Codec, front: seq<Entry>, last: Entry)
    ensures Encoded(codec, front + [last]) == Encoded(codec, front) + [codec.encode(last)]
  {
    EncodedAppend(codec, front, [last]);
    assert [last][1..] == [];
  }

  lemma {:induction false} ChainVerifies(codec: Codec, maxEvent: nat, entries: seq<Entry>)
    requires codec.Valid() && Chain(codec, entries) && AllWithin(codec, entries, maxEvent)
    ensures CheckLines(codec, maxEvent, Encoded(codec, entries)) == Ok(entries)
  {
    if entries == [] {
    } else {
      var front, last := entries[..|entries| - 1], entries[|entries| - 1];
      assert entries == front + [last];
      hide Chain, LogOf, Encoded;
      ChainSnoc(codec, front, last);
      ChainVerifies(codec, maxEvent, front);
      EncodedSnoc(codec, front, last);
      assert codec.decode(codec.encode(last)) == Some(last);
    }
  }

  lemma LogEndsWithLf(codec: Codec, entries: seq<Entry>)
    ensures LogOf(codec, entries) != [] ==> LogOf(codec, entries)[|LogOf(codec, entries)| - 1] == LF
  {
    if entries != [] {
      var front, last := entries[..|entries| - 1], entries[|entries| - 1];
      assert entries == front + [last];
      LogOfSnoc(codec, front, last);
    }
  }

  /** A log of chained entries within the bounds verifies to exactly those entries. */
  lemma LogVerifies(codec: Codec, maxEvent: nat, maxLog: nat, entries: seq<Entry>)
    requires codec.Valid() && Chain(codec, entries) && AllWithin(codec, entries, maxEvent)
    requires |LogOf(codec, entries)| <= maxLog
    ensures Verify(codec, maxEvent, maxLog, LogOf(codec, entries)) == Ok(entries)
  {
    LogEndsWithLf(codec, entries);
    EncodedAreLines(codec, entries);
    SplitTerminated(BYTE_LINES, Encoded(codec, entries));
    ChainVerifies(codec, maxEvent, entries);
  }

  lemma SameDigest(codec: Codec, x: Entry, y: Entry)
    requires codec.Injective() && x.sha == y.sha
    requires x.sha == codec.digest(x.event, x.previous) && y.sha == codec.digest(y.event, y.previous)
    ensures x == y
  {
  }

  /** Two chains that end in the same digest are the same chain. */
  lemma {:induction false} LastDigestFixesTheChain(codec: Codec, a: seq<Entry>, b: seq<Entry>)
    requires codec.Injective() && Chain(codec, a) && Chain(codec, b)
    requires a != [] && b != [] && HashAfter(a) == HashAfter(b)
    ensures a == b
    decreases |a|
  {
    hide Chain, Codec.Injective;
    var a0, x, b0, y := a[..|a| - 1], a[|a| - 1], b[..|b| - 1], b[|b| - 1];
    assert a == a0 + [x] && b == b0 + [y];
    ChainSnoc(codec, a0, x);
    ChainSnoc(codec, b0, y);
    SameDigest(codec, x, y);
    assert |a0| == |b0|;
    if a0 == [] {
    } else {
      LastDigestFixesTheChain(codec, a0, b0);
    }
  }

  /** Two files that verify and whose last entries carry the same digest hold the same entries. */
  lemma VerifiedLogsAgree(codec: Codec, maxEvent: nat, maxLog: nat, file: Bytes, other: Bytes)
    requires codec.Injective()
    requires Verify(codec, maxEvent, maxLog, file).Ok? && Verify(codec, maxEvent, maxLog, other).Ok?
    ensures var a, b := Verify(codec, maxEvent, maxLog, file).value, Verify(codec, maxEvent, maxLog, other).value;
            a != [] && b != [] && HashAfter(a) == HashAfter(b) ==> a == b
  {
    VerifiedIsChain(codec, maxEvent, SplitLines(BYTE_LINES, file));
    VerifiedIsChain(codec, maxEvent, SplitLines(BYTE_LINES, other));
    var a, b := Verify(codec, maxEvent, maxLog, file).value, Verify(codec, maxEvent, maxLog, other).value;
    if a != [] && b != [] && HashAfter(a) == HashAfter(b) {
      LastDigestFixesTheChain(codec, a, b);
    }
  }

  /** The next append can read the end of this log. */
  ghost predicate Appendable(codec: Codec, maxEvent: nat, entries: seq<Entry>) {
    entries == [] || Width(codec, entries[|entries| - 1]) < maxEvent || |LogOf(codec, entries)| <= maxEvent
  }

  /** What the tail read means for the append: no entry, the last one, or an error. */
  lemma TailReadIffAppendable(codec: Codec, maxEvent: nat, entries: seq<Entry>)
    requires codec.Valid() && maxEvent >= 1
    ensures LastEntry(codec, maxEvent, LogOf(codec, entries))
            == Ok(if entries == [] then None else Some(entries[|entries| - 1]))
       <==> Appendable(codec, maxEvent, entries)
    ensures LastEntry(codec, maxEvent, LogOf(codec, entries)).Ok? <==> Appendable(codec, maxEvent, entries)
  {
    if entries != [] {
      var front, last := entries[..|entries| - 1], entries[|entries| - 1];
      assert entries == front + [last];
      TailReadFindsTheLast(codec, maxEvent, front, last);
      if !Appendable(codec, maxEvent, entries) {
        LongRecordIsRefused(codec, maxEvent, front, last);
      }
    }
  }

  class JsonlAuditLog {
    const codec: Codec
    const maxEvent: nat
    const maxLog: nat
    var file: Bytes
    ghost var entries: seq<Entry>

    ghost predicate Valid()
      reads this
    {
      && codec.Valid() && 1024 <= maxEvent <= maxLog
      && Chain(codec, entries) && AllWithin(codec, entries, maxEvent)
      && file == LogOf(codec, entries) && |file| <= maxLog
    }

    constructor (codec: Codec, maxEvent: nat, maxLog: nat)
      requires codec.Valid() && 1024 <= maxEvent <= 1_048_576 && maxEvent <= maxLog <= 1_073_741_824
      ensures Valid() && entries == []
      ensures this.codec == codec && this.maxEvent == maxEvent && this.maxLog == maxLog
    {
      this.codec, this.maxEvent, this.maxLog := codec, maxEvent, maxLog;
      file, entries := [], [];
    }

    /** Succeeds exactly when the tail is readable and the record fits record and log. */
    method Append(body: string) returns (r: Result<Entry, AuditError>)
      requires Valid()
      modifies this
      ensures Valid()
      ensures var next := NextEntry(codec, old(entries), body);
              && (r.Ok? <==> Appendable(codec, maxEvent, old(entries)) && Width(codec, next) <= maxEvent
                             && |old(file)| + Width(codec, next) <= maxLog)
              && (r.Ok? ==> r.value == next && entries == old(entries) + [next])
      ensures r.Err? ==> entries == old(entries) && file == old(file)
    {
      if |file| > maxLog {
        return Err(LogTooLarge);
      }
      TailReadIffAppendable(codec, maxEvent, entries);
      var last := LastEntry(codec, maxEvent, file);
      if last.Err? {
        return Err(last.error);
      }
      var previous := last.value;
      assert previous.Some? ==> previous.value.event.sequence == |entries| - 1;
      var event := Event(if previous.Some? then previous.value.event.sequence + 1 else 0, body);
      var previousHash := if previous.Some? then previous.value.sha else ZERO_HASH;
      var entry := Entry(event, previousHash, codec.digest(event, previousHash));
      var encoded := codec.encode(entry) + [LF];
      if |encoded| > maxEvent {
        return Err(RecordTooLarge);
      }
      if |file| + |encoded| > maxLog {
        return Err(LogFull);
      }
      ChainSnoc(codec, entries, entry);
      LogOfSnoc(codec, entries, entry);
      file := file + encoded;
      entries := entries + [entry];
      return Ok(entry);
    }

    /** Returns exactly the appended entries. */
    method VerifyLog() returns (r: Result<seq<Entry>, AuditError>)
      requires Valid()
      ensures r == Ok(entries)
    {
      LogVerifies(codec, maxEvent, maxLog, entries);
      r := VerifyBytes(codec, maxEvent, maxLog, file);
    }
  }

  /** `verify` on any bytes. */
  method VerifyBytes(codec: Codec, maxEvent: nat, maxLog: nat, file: Bytes) returns (r: Result<seq<Entry>, AuditError>)
    ensures r == Verify(codec, maxEvent, maxLog, file)
  {
    if |file| > maxLog {
      return Err(LogTooLarge);
    }
    if file != [] && file[|file| - 1] != LF {
      return Err(PartialRecord);
    }
    var lines := SplitLines(BYTE_LINES, file);
    var entries, previous := [], ZERO_HASH;
    for sequence := 0 to |lines|
      invariant CheckLines(codec, maxEvent, lines[..sequence]) == Ok(entries)
      invariant |entries| == sequence && previous == HashAfter(entries)
    {
      assert lines[..sequence + 1][..sequence] == lines[..sequence];
      var line := lines[sequence];
      var checked := CheckLine(codec, maxEvent, line, sequence, previous);
      if checked.Err? {
        CheckFails(codec, maxEvent, lines, sequence + 1);
        return Err(checked.error);
      }
      entries := entries + [checked.value];
      previous := checked.value.sha;
    }
    assert lines[..|lines|] == lines;
    return Ok(entries);
  }

  lemma {:induction false} CheckFails(codec: Codec, maxEvent: nat, lines: seq<Bytes>, n: nat)
    requires n <= |lines| && CheckLines(codec, maxEvent, lines[..n]).Err?
    ensures CheckLines(codec, maxEvent, lines) == CheckLines(codec, maxEvent, lines[..n])
    decreases |lines| - n
  {
    if n == |lines| {
      assert lines[..n] == lines;
    } else {
      assert lines[..n + 1][..n] == lines[..n];
      CheckFails(codec, maxEvent, lines, n + 1);
    }
  }
}
