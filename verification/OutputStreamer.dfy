/**
 The bounded two-channel streamer: one raw-byte budget shared by both channels,
 each channel redacted before it is emitted. Its state is described as a
 function of the history of feeds.
 */
module OutputStreamer {
  import opened Wrappers
  import opened Redaction

  datatype Channel = Stdout | Stderr

  datatype Fed = Fed(channel: Channel, data: Bytes)

  datatype FeedError = AlreadyFinished | SinkFailed

  /** A byte of the interleaved input, tagged with its channel. */
  datatype Tagged = Tagged(channel: Channel, value: byte)

  function Tag(channel: Channel, data: Bytes): (r: seq<Tagged>)
    ensures |r| == |data|
  {
    seq(|data|, i requires 0 <= i < |data| => Tagged(channel, data[i]))
  }

  /** The whole interleaved input of a run. */
  function Interleaved(history: seq<Fed>): seq<Tagged> {
    if history == [] then []
    else
      var last := history[|history| - 1];
      Interleaved(history[..|history| - 1]) + Tag(last.channel, last.data)
  }

  function OnChannel(input: seq<Tagged>, channel: Channel): Bytes {
    if input == [] then []
    else
      var last := input[|input| - 1];
      OnChannel(input[..|input| - 1], channel) + (if last.channel == channel then [last.value] else [])
  }

  /** How much of the budget a run has used. */
  function Used(history: seq<Fed>, maxBytes: nat): nat {
    Min(maxBytes, |Interleaved(history)|)
  }

  /** The part of the next feed that still fits. */
  function Accepted(history: seq<Fed>, data: Bytes, maxBytes: nat): Bytes {
    data[..Min(|data|, maxBytes - Used(history, maxBytes))]
  }

  /** The chunks that a channel's redactor receives in a run. */
  function ChunksOn(history: seq<Fed>, channel: Channel, maxBytes: nat): seq<Bytes> {
    if history == [] then []
    else
      var before, last := history[..|history| - 1], history[|history| - 1];
      var accepted := Accepted(before, last.data, maxBytes);
      ChunksOn(before, channel, maxBytes) + (if last.channel == channel && accepted != [] then [accepted] else [])
  }

  lemma HistoryAppend(history: seq<Fed>, last: Fed, maxBytes: nat, channel: Channel)
    ensures Interleaved(history + [last]) == Interleaved(history) + Tag(last.channel, last.data)
    ensures var accepted := Accepted(history, last.data, maxBytes);
            ChunksOn(history + [last], channel, maxBytes)
            == ChunksOn(history, channel, maxBytes) + (if last.channel == channel && accepted != [] then [accepted] else [])
  {
    assert (history + [last])[..|history|] == history;
  }

  lemma {:induction false} OnChannelAppend(a: seq<Tagged>, b: seq<Tagged>, channel: Channel)
    ensures OnChannel(a + b, channel) == OnChannel(a, channel) + OnChannel(b, channel)
  {
    if b == [] {
      assert a + b == a;
    } else {
      var front, last := b[..|b| - 1], b[|b| - 1];
      assert (a + b)[..|a + b| - 1] == a + front;
      OnChannelAppend(a, front, channel);
      Assoc(OnChannel(a, channel), OnChannel(front, channel), if last.channel == channel then [last.value] else []);
    }
  }

  lemma {:induction false} OnChannelTag(source: Channel, data: Bytes, channel: Channel)
    ensures OnChannel(Tag(source, data), channel) == if source == channel then data else []
  {
    if data == [] {
    } else {
      var front := data[..|data| - 1];
      assert Tag(source, data)[..|data| - 1] == Tag(source, front);
      OnChannelTag(source, front, channel);
      assert front + [data[|data| - 1]] == data;
    }
  }

  lemma PrefixGrows(before: seq<Fed>, last: Fed, maxBytes: nat)
    ensures var history := before + [last];
            Interleaved(history)[..Used(history, maxBytes)]
            == Interleaved(before)[..Used(before, maxBytes)] + Tag(last.channel, Accepted(before, last.data, maxBytes))
  {
    HistoryAppend(before, last, maxBytes, last.channel);
    hide Interleaved, ChunksOn;
  }

  /** The redactors together receive exactly the first `maxBytes` bytes of the
      interleaved input, each its own channel's share, in order. */
  lemma {:induction false} ChunksAreTheBudgetedPrefix(history: seq<Fed>, channel: Channel, maxBytes: nat)
    ensures Concat(ChunksOn(history, channel, maxBytes))
         == OnChannel(Interleaved(history)[..Used(history, maxBytes)], channel)
    decreases |history|
  {
    if history == [] {
    } else {
      var before, last := history[..|history| - 1], history[|history| - 1];
      var accepted := Accepted(before, last.data, maxBytes);
      var sofar, tagged := Interleaved(before), Tag(last.channel, accepted);
      ChunksAreTheBudgetedPrefix(before, channel, maxBytes);
      PrefixGrows(before, last, maxBytes);
      assert history == before + [last];
      hide Interleaved, Accepted, Used, OnChannel;
      OnChannelAppend(sofar[..Used(before, maxBytes)], tagged, channel);
      OnChannelTag(last.channel, accepted, channel);
      var more := if last.channel == channel && accepted != [] then [accepted] else [];
      ConcatAppend(ChunksOn(before, channel, maxBytes), more);
      ConcatOne(accepted);
      assert Concat(more) == if last.channel == channel then accepted else [];
    }
  }

  lemma {:induction false} ChannelsShareTheInput(input: seq<Tagged>)
    ensures |OnChannel(input, Stdout)| + |OnChannel(input, Stderr)| == |input|
  {
    if input == [] {
    } else {
      ChannelsShareTheInput(input[..|input| - 1]);
    }
  }

  /** The budget is spent on exactly the first `maxBytes` bytes, and the shares add up. */
  lemma BudgetIsShared(history: seq<Fed>, maxBytes: nat)
    ensures |Concat(ChunksOn(history, Stdout, maxBytes))| + |Concat(ChunksOn(history, Stderr, maxBytes))|
         == Used(history, maxBytes)
  {
    ChunksAreTheBudgetedPrefix(history, Stdout, maxBytes);
    ChunksAreTheBudgetedPrefix(history, Stderr, maxBytes);
    ChannelsShareTheInput(Interleaved(history)[..Used(history, maxBytes)]);
  }

  /** The data fed on one channel, feed by feed. */
  function DataOn(history: seq<Fed>, channel: Channel): seq<Bytes> {
    if history == [] then []
    else
      var last := history[|history| - 1];
      DataOn(history[..|history| - 1], channel) + (if last.channel == channel then [last.data] else [])
  }

  /** How many bytes were fed in all. */
  function Total(history: seq<Fed>): nat {
    if history == [] then 0 else Total(history[..|history| - 1]) + |history[|history| - 1].data|
  }

  /** The interleaved input is what was fed: each channel's data in order, and no byte more. */
  lemma {:induction false} InterleavedIsWhatWasFed(history: seq<Fed>, channel: Channel)
    ensures OnChannel(Interleaved(history), channel) == Concat(DataOn(history, channel)) && |Interleaved(history)| == Total(history)
  {
    if history == [] {
    } else {
      var before, last := history[..|history| - 1], history[|history| - 1];
      InterleavedIsWhatWasFed(before, channel);
      OnChannelAppend(Interleaved(before), Tag(last.channel, last.data), channel);
      OnChannelTag(last.channel, last.data, channel);
      ConcatAppend(DataOn(before, channel), if last.channel == channel then [last.data] else []);
      ConcatOne(last.data);
    }
  }

  /** The redactors receive as many bytes as the budget allows, and everything when the input is within it. */
  lemma BudgetIsSpent(history: seq<Fed>, channel: Channel, maxBytes: nat)
    ensures |Concat(ChunksOn(history, Stdout, maxBytes))| + |Concat(ChunksOn(history, Stderr, maxBytes))|
         == (if Total(history) <= maxBytes then Total(history) else maxBytes)
    ensures Total(history) <= maxBytes ==> Concat(ChunksOn(history, channel, maxBytes)) == Concat(DataOn(history, channel))
  {
    hide Interleaved, ChunksOn, OnChannel, DataOn, Total, Concat;
    BudgetIsShared(history, maxBytes);
    InterleavedIsWhatWasFed(history, channel);
    ChunksAreTheBudgetedPrefix(history, channel, maxBytes);
    assert Interleaved(history)[..|Interleaved(history)|] == Interleaved(history);
  }

  /** Truncation never reverts: a longer run of a truncated run is truncated. */
  lemma {:induction false} TruncationIsPermanent(history: seq<Fed>, more: seq<Fed>, maxBytes: nat)
    requires |Interleaved(history)| > maxBytes
    ensures |Interleaved(history + more)| > maxBytes
    ensures Used(history + more, maxBytes) == Used(history, maxBytes)
  {
    if more == [] {
      assert history + more == history;
    } else {
      var front, last := more[..|more| - 1], more[|more| - 1];
      TruncationIsPermanent(history, front, maxBytes);
      HistoryAppend(history + front, last, maxBytes, Stdout);
      assert history + more == (history + front) + [last];
    }
  }

  /** What a channel shows after `finish`, when no secret extends another: one scan
      of exactly that channel's share of the first `maxBytes` input bytes. */
  lemma FinishedChannelIsOneScan(secrets: seq<Bytes>, history: seq<Fed>, channel: Channel, maxBytes: nat)
    requires NonEmptySecrets(secrets) && PrefixFree(secrets)
    ensures Redact(secrets, ChunksOn(history, channel, maxBytes))
         == Scan(secrets, OnChannel(Interleaved(history)[..Used(history, maxBytes)], channel))
  {
    ChunkedEqualsScan(secrets, ChunksOn(history, channel, maxBytes));
    ChunksAreTheBudgetedPrefix(history, channel, maxBytes);
  }

  /** What a channel shows after `finish`, for any secrets: every accepted byte is
      accounted for once, and no secret starts at a copied byte. */
  lemma FinishedChannelIsSafe(secrets: seq<Bytes>, history: seq<Fed>, channel: Channel, maxBytes: nat)
    requires NonEmptySecrets(secrets)
    ensures var items := Redact(secrets, ChunksOn(history, channel, maxBytes));
            && Source(items) == OnChannel(Interleaved(history)[..Used(history, maxBytes)], channel)
            && Clean(secrets, items, [])
  {
    RedactionIsSafe(secrets, ChunksOn(history, channel, maxBytes));
    ChunksAreTheBudgetedPrefix(history, channel, maxBytes);
  }

  function SentOn(emitted: seq<Fed>, channel: Channel): Bytes {
    if emitted == [] then []
    else
      var last := emitted[|emitted| - 1];
      SentOn(emitted[..|emitted| - 1], channel) + (if last.channel == channel then last.data else [])
  }

  lemma SentAppend(emitted: seq<Fed>, source: Channel, data: Bytes, channel: Channel)
    ensures SentOn(emitted + [Fed(source, data)], channel)
         == SentOn(emitted, channel) + (if source == channel then data else [])
  {
    assert (emitted + [Fed(source, data)])[..|emitted|] == emitted;
  }

  // ---------- What is handed to the sink, taken or not

  datatype Offer = Offer(fed: Fed, taken: bool)

  function Offered(offers: seq<Offer>): seq<Fed> {
    if offers == [] then [] else Offered(offers[..|offers| - 1]) + [offers[|offers| - 1].fed]
  }

  function Taken(offers: seq<Offer>): seq<Fed> {
    if offers == [] then []
    else
      var last := offers[|offers| - 1];
      Taken(offers[..|offers| - 1]) + (if last.taken then [last.fed] else [])
  }

  lemma OfferMore(offers: seq<Offer>, offer: Offer, channel: Channel)
    ensures Taken(offers + [offer]) == Taken(offers) + (if offer.taken then [offer.fed] else [])
    ensures SentOn(Offered(offers + [offer]), channel)
         == SentOn(Offered(offers), channel) + (if offer.fed.channel == channel then offer.fed.data else [])
  {
    assert (offers + [offer])[..|offers|] == offers;
    SentAppend(Offered(offers), offer.fed.channel, offer.fed.data, channel);
    assert offer.fed == Fed(offer.fed.channel, offer.fed.data);
  }

  lemma {:induction false} AllTaken(offers: seq<Offer>)
    requires forall i | 0 <= i < |offers| :: offers[i].taken
    ensures Taken(offers) == Offered(offers)
  {
    if offers == [] {
    } else {
      AllTaken(offers[..|offers| - 1]);
    }
  }

  // ---------- What one channel's redactor and counter hold after a run

  /** A live channel holds and counts what its history says. */
  ghost predicate Tracks(secrets: seq<Bytes>, history: seq<Fed>, channel: Channel, maxBytes: nat, buffer: Bytes, count: nat)
    requires NonEmptySecrets(secrets)
  {
    var chunks := ChunksOn(history, channel, maxBytes);
    count == |Concat(chunks)| && buffer == Feeds(secrets, [], chunks).rest
  }

  /** The bytes a channel has shown so far. */
  ghost function Live(secrets: seq<Bytes>, history: seq<Fed>, channel: Channel, maxBytes: nat): Bytes
    requires NonEmptySecrets(secrets)
  {
    Render(Feeds(secrets, [], ChunksOn(history, channel, maxBytes)).items)
  }

  /** The bytes a channel has shown after `finish`. */
  ghost function Final(secrets: seq<Bytes>, history: seq<Fed>, channel: Channel, maxBytes: nat): Bytes
    requires NonEmptySecrets(secrets)
  {
    Render(Redact(secrets, ChunksOn(history, channel, maxBytes)))
  }

  lemma FeedOnChannel(secrets: seq<Bytes>, history: seq<Fed>, next: Fed, maxBytes: nat, buffer: Bytes, count: nat)
    requires NonEmptySecrets(secrets) && Tracks(secrets, history, next.channel, maxBytes, buffer, count)
    requires Accepted(history, next.data, maxBytes) != []
    ensures var accepted := Accepted(history, next.data, maxBytes);
            var d := Drain(secrets, buffer + accepted, false);
            && Tracks(secrets, history + [next], next.channel, maxBytes, d.rest, count + |accepted|)
            && Live(secrets, history + [next], next.channel, maxBytes)
            == Live(secrets, history, next.channel, maxBytes) + Render(d.items)
  {
    var accepted := Accepted(history, next.data, maxBytes);
    var chunks := ChunksOn(history, next.channel, maxBytes);
    HistoryAppend(history, next, maxBytes, next.channel);
    ConcatAppend(chunks, [accepted]);
    ConcatOne(accepted);
    FeedsAppend(secrets, [], chunks, accepted);
    RenderAppend(Feeds(secrets, [], chunks).items, Drain(secrets, buffer + accepted, false).items);
  }

  lemma FeedElsewhere(history: seq<Fed>, next: Fed, maxBytes: nat, channel: Channel)
    requires next.channel != channel || Accepted(history, next.data, maxBytes) == []
    ensures ChunksOn(history + [next], channel, maxBytes) == ChunksOn(history, channel, maxBytes)
  {
    HistoryAppend(history, next, maxBytes, channel);
  }

  lemma FinishOnChannel(secrets: seq<Bytes>, history: seq<Fed>, channel: Channel, maxBytes: nat, buffer: Bytes, count: nat)
    requires NonEmptySecrets(secrets) && Tracks(secrets, history, channel, maxBytes, buffer, count)
    ensures Final(secrets, history, channel, maxBytes)
         == Live(secrets, history, channel, maxBytes) + Render(Drain(secrets, buffer, true).items)
  {
    RenderAppend(Feeds(secrets, [], ChunksOn(history, channel, maxBytes)).items, Drain(secrets, buffer, true).items);
  }

  // ---------- Construction: the secrets are deduplicated and tried longest first

  function InsertByLength(secret: Bytes, sorted: seq<Bytes>): seq<Bytes> {
    if sorted == [] || |secret| >= |sorted[0]| then [secret] + sorted
    else [sorted[0]] + InsertByLength(secret, sorted[1..])
  }

  function Normalize(secrets: seq<Bytes>): seq<Bytes> {
    if secrets == [] then []
    else if secrets[0] in secrets[1..] then Normalize(secrets[1..])
    else InsertByLength(secrets[0], Normalize(secrets[1..]))
  }

  lemma {:induction false} InsertByLengthKeeps(secret: Bytes, sorted: seq<Bytes>)
    requires LongestFirst(sorted)
    ensures var r := InsertByLength(secret, sorted);
            && LongestFirst(r) && |r| == |sorted| + 1
            && forall s :: s in r <==> s == secret || s in sorted
  {
    if sorted != [] && |secret| < |sorted[0]| {
      var rest := InsertByLength(secret, sorted[1..]);
      InsertByLengthKeeps(secret, sorted[1..]);
      assert forall s :: s in sorted <==> s == sorted[0] || s in sorted[1..];
      forall j | 0 <= j < |rest| ensures |sorted[0]| >= |rest[j]| {
        assert rest[j] in rest;
      }
    }
  }

  /** The redactor gets each distinct secret once, longest first. */
  lemma {:induction false} NormalizeKeeps(secrets: seq<Bytes>)
    ensures var r := Normalize(secrets);
            && LongestFirst(r) && |r| == |set s | s in secrets|
            && forall s :: s in r <==> s in secrets
  {
    if secrets == [] {
    } else {
      var rest := set s | s in secrets[1..];
      NormalizeKeeps(secrets[1..]);
      assert forall s :: s in secrets <==> s == secrets[0] || s in secrets[1..];
      if secrets[0] in secrets[1..] {
        assert (set s | s in secrets) == rest;
      } else {
        InsertByLengthKeeps(secrets[0], Normalize(secrets[1..]));
        assert (set s | s in secrets) == rest + {secrets[0]};
      }
    }
  }

  const NUL: byte := 0

  predicate AcceptableSecrets(secrets: seq<Bytes>) {
    |Normalize(secrets)| <= 128 && forall s | s in secrets :: 4 <= |s| <= 4096 && NUL !in s
  }

  predicate AcceptableBudget(maxBytes: int) {
    1024 <= maxBytes <= 67_108_864
  }

  /** The limits a streamer is made with: between 1 KiB and 64 MiB of output, and at most 128 different secrets of 4 to 4096
      bytes without a NUL. */
  lemma LimitsOfAStreamer(maxBytes: int, secrets: seq<Bytes>)
    ensures AcceptableBudget(maxBytes) <==> 1024 <= maxBytes <= 64 * 1024 * 1024
    ensures AcceptableSecrets(secrets) <==>
              |set s | s in secrets| <= 128 && forall s | s in secrets :: 4 <= |s| <= 4096 && (0 as byte) !in s
  {
    NormalizeKeeps(secrets);
  }

  class BoundedOutputStreamer {
    const maxBytes: nat
    const secrets: seq<Bytes>
    const stdout: LiteralRedactor
    const stderr: LiteralRedactor
    var stdoutBytes: nat
    var stderrBytes: nat
    var totalBytes: nat
    var truncated: bool
    var finished: bool
    /** What the sink has received. */
    var emitted: seq<Fed>
    /** Every nonempty feed that got past the finished check. */
    ghost var history: seq<Fed>
    /** What was handed to the sink, and whether it was taken. */
    ghost var offers: seq<Offer>
    /** A delivery has failed. */
    ghost var broken: bool
    /** Finishing stopped at a failed delivery on stdout. */
    ghost var cutShort: bool

    /** Budget, counters and redactors are what the history of feeds determines. */
    ghost predicate Tracked()
      reads this, stdout, stderr
    {
      && stdout != stderr && stdout.secrets == secrets && stderr.secrets == secrets && NonEmptySecrets(secrets)
      && totalBytes == Used(history, maxBytes)
      && stdoutBytes == |Concat(ChunksOn(history, Stdout, maxBytes))|
      && stderrBytes == |Concat(ChunksOn(history, Stderr, maxBytes))|
      && (!finished ==> Tracks(secrets, history, Stdout, maxBytes, stdout.buffer, stdoutBytes))
      && (!finished ==> Tracks(secrets, history, Stderr, maxBytes, stderr.buffer, stderrBytes))
    }

    ghost predicate Valid()
      reads this, stdout, stderr
    {
      && Tracked()
      && emitted == Taken(offers)
      && (broken <==> exists i | 0 <= i < |offers| :: !offers[i].taken)
      && (cutShort ==> finished && broken)
      && SentOn(Offered(offers), Stdout) == Shown(Stdout)
      && SentOn(Offered(offers), Stderr)
         == (if cutShort then Live(secrets, history, Stderr, maxBytes) else Shown(Stderr))
      && (truncated ==> |Interleaved(history)| > maxBytes)
      && (|Interleaved(history)| > maxBytes && !broken ==> truncated)
    }

    /** With no failed delivery, the sink has received exactly what each channel should show. */
    lemma ReceivedInFull(channel: Channel)
      requires Valid() && !broken
      ensures SentOn(emitted, channel) == Shown(channel) && truncated == (|Interleaved(history)| > maxBytes)
    {
      AllTaken(offers);
    }

    /** What a channel should show, judging by the history alone. */
    ghost function Shown(channel: Channel): Bytes
      requires NonEmptySecrets(secrets)
      reads this
    {
      if finished then Final(secrets, history, channel, maxBytes) else Live(secrets, history, channel, maxBytes)
    }

    constructor (maxBytes: nat, secrets: seq<Bytes>)
      requires AcceptableBudget(maxBytes) && AcceptableSecrets(secrets)
      ensures Valid() && history == [] && !finished && !broken && fresh(stdout) && fresh(stderr)
      ensures this.maxBytes == maxBytes && this.secrets == Normalize(secrets)
    {
      NormalizeKeeps(secrets);
      this.maxBytes := maxBytes;
      this.secrets := Normalize(secrets);
      stdout := new LiteralRedactor(Normalize(secrets));
      stderr := new LiteralRedactor(Normalize(secrets));
      stdoutBytes, stderrBytes, totalBytes := 0, 0, 0;
      truncated, finished, emitted := false, false, [];
      history, offers, broken, cutShort := [], [], false, false;
    }

    /** `delivers` says whether the sink takes the data within its timeout. */
    method Feed(channel: Channel, data: Bytes, delivers: bool) returns (r: Result<bool, FeedError>)
      requires Valid()
      modifies this, stdout`buffer, stderr`buffer
      ensures Valid() && finished == old(finished)
      ensures history == old(history) + (if data == [] || finished then [] else [Fed(channel, data)])
      ensures data == [] ==> r == Ok(!old(truncated))
      ensures data != [] && finished ==> r == Err(AlreadyFinished)
      ensures delivers || data == [] || finished ==> broken == old(broken)
      ensures delivers && data != [] && !finished ==> r == Ok(|Interleaved(history)| <= maxBytes)
      ensures data != [] && r.Ok? ==> truncated == (|Interleaved(history)| > maxBytes)
      ensures r.Err? ==> truncated == old(truncated) && emitted == old(emitted)
      ensures old(offers) <= offers && |offers| <= |old(offers)| + 1 && cutShort == old(cutShort)
    {
      hide ChunksOn, Interleaved, Feeds, Drain, Render, Concat, SentOn, NonEmptySecrets, Final, Live, Tracks, Offered, Taken;
      if data == [] {
        return Ok(!truncated);
      }
      if finished {
        return Err(AlreadyFinished);
      }
      var accepted, redacted := TakeIn(channel, data);
      var sent := Deliver(channel, redacted, delivers);
      if !sent {
        return Err(SinkFailed);
      }
      if |accepted| != |data| {
        truncated := true;
      }
      return Ok(!truncated);
    }

    /** Charges the budget and runs the accepted bytes through the channel's redactor. */
    method TakeIn(channel: Channel, data: Bytes) returns (accepted: Bytes, redacted: Bytes)
      requires Tracked() && !finished
      modifies this`stdoutBytes, this`stderrBytes, this`totalBytes, this`history, stdout`buffer, stderr`buffer
      ensures Tracked() && history == old(history) + [Fed(channel, data)]
      ensures accepted == Accepted(old(history), data, maxBytes)
      ensures |Interleaved(history)| == |Interleaved(old(history))| + |data|
      ensures Shown(channel) == old(Shown(channel)) + redacted
      ensures forall c | c != channel :: Shown(c) == old(Shown(c))
    {
      hide ChunksOn, Interleaved, Feeds, Drain, Render, Concat, SentOn, NonEmptySecrets, Final;
      ghost var before, next := history, Fed(channel, data);
      HistoryAppend(history, next, maxBytes, channel);
      accepted, redacted := data[..Min(|data|, maxBytes - totalBytes)], [];
      totalBytes := totalBytes + |accepted|;
      history := history + [next];
      FeedElsewhere(before, next, maxBytes, if channel == Stdout then Stderr else Stdout);
      if accepted == [] {
        FeedElsewhere(before, next, maxBytes, channel);
      } else if channel == Stdout {
        FeedOnChannel(secrets, before, next, maxBytes, stdout.buffer, stdoutBytes);
        stdoutBytes := stdoutBytes + |accepted|;
        redacted := stdout.Feed(accepted);
      } else {
        FeedOnChannel(secrets, before, next, maxBytes, stderr.buffer, stderrBytes);
        stderrBytes := stderrBytes + |accepted|;
        redacted := stderr.Feed(accepted);
      }
    }

    /** `delivers` says, channel by channel, whether the sink takes the trailing data. */
    method Finish(deliversStdout: bool, deliversStderr: bool) returns (r: Result<(), FeedError>)
      requires Valid()
      modifies this, stdout`buffer, stderr`buffer
      ensures Valid() && finished && history == old(history) && truncated == old(truncated)
      ensures deliversStdout && deliversStderr ==> r == Ok(()) && broken == old(broken)
      ensures r.Ok? ==> cutShort == old(cutShort)
      ensures old(finished) ==> r == Ok(()) && offers == old(offers) && emitted == old(emitted)
    {
      hide ChunksOn, Interleaved, Feeds, Drain, Render, Concat, SentOn, NonEmptySecrets, Final, Live, Offered, Taken;
      if finished {
        return Ok(());
      }
      FinishOnChannel(secrets, history, Stdout, maxBytes, stdout.buffer, stdoutBytes);
      FinishOnChannel(secrets, history, Stderr, maxBytes, stderr.buffer, stderrBytes);
      finished := true;
      var trailing := stdout.Finish();
      var sent := Deliver(Stdout, trailing, deliversStdout);
      if !sent {
        cutShort := true;
        return Err(SinkFailed);
      }
      trailing := stderr.Finish();
      sent := Deliver(Stderr, trailing, deliversStderr);
      return if sent then Ok(()) else Err(SinkFailed);
    }

    /** Hands nonempty data to the sink. */
    method Deliver(channel: Channel, data: Bytes, delivers: bool) returns (sent: bool)
      requires emitted == Taken(offers) && (broken <==> exists i | 0 <= i < |offers| :: !offers[i].taken)
      modifies this`emitted, this`offers, this`broken
      ensures emitted == Taken(offers) && (broken <==> exists i | 0 <= i < |offers| :: !offers[i].taken)
      ensures sent == (data == [] || delivers) && broken == (old(broken) || !sent)
      ensures offers == old(offers) + (if data == [] then [] else [Offer(Fed(channel, data), delivers)])
      ensures !sent ==> emitted == old(emitted)
      ensures SentOn(Offered(offers), channel) == SentOn(Offered(old(offers)), channel) + data
      ensures forall c | c != channel :: SentOn(Offered(offers), c) == SentOn(Offered(old(offers)), c)
    {
      hide SentOn, Offered, Taken;
      if data == [] {
        return true;
      }
      forall c {
        OfferMore(offers, Offer(Fed(channel, data), delivers), c);
      }
      ghost var before := offers;
      OfferMore(before, Offer(Fed(channel, data), delivers), channel);
      offers := offers + [Offer(Fed(channel, data), delivers)];
      assert offers[|before|] == Offer(Fed(channel, data), delivers) && forall i | 0 <= i < |before| :: offers[i] == before[i];
      if !delivers {
        assert Taken(before) + [] == Taken(before) && !offers[|before|].taken;
        broken := true;
        return false;
      }
      emitted := emitted + [Fed(channel, data)];
      return true;
    }
  }
}
