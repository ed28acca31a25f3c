/**
 The online literal redactor: bytes arrive in arbitrary chunks, every secret is
 replaced by a marker, and a suffix that might still grow into a secret is held back.
 */
module Redaction {
  import opened Wrappers

  /** "[REDACTED]" */
  const MARKER: Bytes := [91, 82, 69, 68, 65, 67, 84, 69, 68, 93]

  /** One unit of output, remembering which input bytes it stands for. */
  datatype Item = Marker(secret: Bytes) | Literal(value: byte)

  datatype Drained = Drained(items: seq<Item>, rest: Bytes)

  /** The input bytes one unit of output stands for. */
  function Piece(item: Item): Bytes {
    match item case Marker(s) => s case Literal(b) => [b]
  }

  function Shown(item: Item): (r: Bytes)
    ensures r != []
  {
    match item case Marker(_) => MARKER case Literal(b) => [b]
  }

  /** The input bytes an output stands for. */
  function Source(items: seq<Item>): Bytes {
    if items == [] then [] else Piece(items[0]) + Source(items[1..])
  }

  /** The output bytes themselves. */
  function Render(items: seq<Item>): Bytes {
    if items == [] then [] else Shown(items[0]) + Render(items[1..])
  }

  ghost predicate NonEmptySecrets(secrets: seq<Bytes>) {
    forall s | s in secrets :: s != []
  }

  ghost predicate LongestFirst(secrets: seq<Bytes>) {
    forall i, j | 0 <= i < j < |secrets| :: |secrets[i]| >= |secrets[j]|
  }

  /** No secret is a proper prefix of another. */
  ghost predicate PrefixFree(secrets: seq<Bytes>) {
    forall a, b | a in secrets && b in secrets :: a <= b ==> a == b
  }

  /** The first secret, in list order, that the buffer starts with. */
  function FirstMatch(secrets: seq<Bytes>, buffer: Bytes): (m: Option<Bytes>)
    ensures m.Some? ==> m.value in secrets && m.value <= buffer
    ensures m.None? ==> forall s | s in secrets :: !(s <= buffer)
  {
    if secrets == [] then None
    else if secrets[0] <= buffer then Some(secrets[0])
    else
      assert forall s | s in secrets :: s == secrets[0] || s in secrets[1..];
      FirstMatch(secrets[1..], buffer)
  }

  lemma {:induction false} FirstMatchIsLongest(secrets: seq<Bytes>, buffer: Bytes)
    requires LongestFirst(secrets)
    ensures forall s | s in secrets && s <= buffer ::
              FirstMatch(secrets, buffer).Some? && |s| <= |FirstMatch(secrets, buffer).value|
  {
    if secrets != [] && !(secrets[0] <= buffer) {
      FirstMatchIsLongest(secrets[1..], buffer);
    }
  }

  /** The buffer could still grow into a secret. */
  predicate Withheld(secrets: seq<Bytes>, buffer: Bytes) {
    exists s | s in secrets :: |buffer| < |s| && buffer <= s
  }

  /** The next unit to emit from the front of the buffer, unless it is held back. */
  function Next(secrets: seq<Bytes>, buffer: Bytes, final: bool): (r: Option<Item>)
    requires NonEmptySecrets(secrets)
    ensures r.Some? ==> Piece(r.value) <= buffer && |Piece(r.value)| >= 1
  {
    if buffer == [] then None
    else match FirstMatch(secrets, buffer)
      case Some(m) => Some(Marker(m))
      case None => if !final && Withheld(secrets, buffer) then None else Some(Literal(buffer[0]))
  }

  function After(buffer: Bytes, item: Item): (rest: Bytes)
    requires Piece(item) <= buffer
    ensures Piece(item) + rest == buffer
  {
    buffer[|Piece(item)|..]
  }

  /** What one pass over the buffer emits and keeps. */
  function Drain(secrets: seq<Bytes>, buffer: Bytes, final: bool): Drained
    requires NonEmptySecrets(secrets)
    decreases |buffer|
  {
    match Next(secrets, buffer, final)
    case None => Drained([], buffer)
    case Some(item) =>
      var d := Drain(secrets, After(buffer, item), final);
      Drained([item] + d.items, d.rest)
  }

  /** A run of feeds, starting with `held` in the buffer. */
  function Feeds(secrets: seq<Bytes>, held: Bytes, chunks: seq<Bytes>): Drained
    requires NonEmptySecrets(secrets)
    decreases |chunks|
  {
    if chunks == [] then Drained([], held)
    else
      var first := Drain(secrets, held + chunks[0], false);
      var others := Feeds(secrets, first.rest, chunks[1..]);
      Drained(first.items + others.items, others.rest)
  }

  /** Everything emitted for a stream: all feeds, then finish. */
  function Redact(secrets: seq<Bytes>, chunks: seq<Bytes>): seq<Item>
    requires NonEmptySecrets(secrets)
  {
    var fed := Feeds(secrets, [], chunks);
    fed.items + Drain(secrets, fed.rest, true).items
  }

  /** One scan of the whole text. */
  function Scan(secrets: seq<Bytes>, text: Bytes): seq<Item>
    requires NonEmptySecrets(secrets)
  {
    Drain(secrets, text, true).items
  }

  // ---------- Append laws

  lemma SourceCons(item: Item, items: seq<Item>)
    ensures Source([item] + items) == Piece(item) + Source(items)
    ensures Render([item] + items) == Shown(item) + Render(items)
  {
    assert ([item] + items)[1..] == items;
  }

  lemma {:induction false} SourceAppend(a: seq<Item>, b: seq<Item>)
    ensures Source(a + b) == Source(a) + Source(b)
  {
    if a == [] {
      assert a + b == b;
    } else {
      assert (a + b)[1..] == a[1..] + b;
      SourceAppend(a[1..], b);
    }
  }

  lemma {:induction false} RenderAppend(a: seq<Item>, b: seq<Item>)
    ensures Render(a + b) == Render(a) + Render(b)
  {
    if a == [] {
      assert a + b == b;
    } else {
      assert (a + b)[1..] == a[1..] + b;
      RenderAppend(a[1..], b);
    }
  }

  lemma {:induction false} FeedsAppend(secrets: seq<Bytes>, held: Bytes, chunks: seq<Bytes>, last: Bytes)
    requires NonEmptySecrets(secrets)
    ensures var fed := Feeds(secrets, held, chunks);
            var step := Drain(secrets, fed.rest + last, false);
            Feeds(secrets, held, chunks + [last]) == Drained(fed.items + step.items, step.rest)
    decreases |chunks|
  {
    var all := chunks + [last];
    if chunks == [] {
      assert all == [last] && all[1..] == [];
      var step := Drain(secrets, held + last, false);
      assert step.items + [] == step.items == [] + step.items;
    } else {
      assert all[0] == chunks[0] && all[1..] == chunks[1..] + [last];
      var first := Drain(secrets, held + chunks[0], false);
      FeedsAppend(secrets, first.rest, chunks[1..], last);
      var others := Feeds(secrets, first.rest, chunks[1..]);
      Assoc(first.items, others.items, Drain(secrets, others.rest + last, false).items);
    }
  }

  // ---------- The scan is the longest-leftmost replacement, and the only one

  /** `items` splits `text` so that every marker is the longest secret at its
      position and no secret starts at a copied byte. */
  ghost predicate IsLongestLeftmost(secrets: seq<Bytes>, text: Bytes, items: seq<Item>) {
    if items == [] then text == []
    else
      && Piece(items[0]) <= text
      && IsForced(secrets, items[0], text)
      && IsLongestLeftmost(secrets, text[|Piece(items[0])|..], items[1..])
  }

  ghost predicate IsForced(secrets: seq<Bytes>, item: Item, remaining: Bytes) {
    match item
    case Marker(m) => m in secrets && forall s | s in secrets && s <= remaining :: |s| <= |m|
    case Literal(_) => forall s | s in secrets :: !(s <= remaining)
  }

  lemma NextIsForced(secrets: seq<Bytes>, text: Bytes, item: Item)
    requires NonEmptySecrets(secrets) && LongestFirst(secrets)
    requires text != [] && Piece(item) <= text
    ensures Next(secrets, text, true) == Some(item) <==> IsForced(secrets, item, text)
  {
    FirstMatchIsLongest(secrets, text);
    var m := FirstMatch(secrets, text);
    if m.Some? && item.Marker? && IsForced(secrets, item, text) {
      assert |m.value| == |item.secret|;
      assert item.secret == text[..|item.secret|] == m.value;
    }
  }

  /** The scan is the longest-leftmost replacement, and nothing else is. */
  lemma {:induction false} ScanIsTheLongestLeftmost(secrets: seq<Bytes>, text: Bytes, items: seq<Item>)
    requires NonEmptySecrets(secrets) && LongestFirst(secrets)
    ensures IsLongestLeftmost(secrets, text, items) <==> items == Scan(secrets, text)
    decreases |text|
  {
    var next := Next(secrets, text, true);
    if text != [] && items != [] && Piece(items[0]) <= text {
      NextIsForced(secrets, text, items[0]);
      if next == Some(items[0]) {
        ScanIsTheLongestLeftmost(secrets, After(text, items[0]), items[1..]);
        assert items == [items[0]] + items[1..];
      }
    }
  }

  // ---------- Chunked processing against one scan

  lemma PrefixesCompare(a: Bytes, b: Bytes, whole: Bytes)
    requires a <= whole && b <= whole
    ensures a <= b || b <= a
  {
    assert a == whole[..|a|] && b == whole[..|b|];
  }

  lemma AfterAppend(buffer: Bytes, more: Bytes, item: Item)
    requires Piece(item) <= buffer
    ensures Piece(item) <= buffer + more && After(buffer + more, item) == After(buffer, item) + more
  {
    assert After(buffer + more, item) == After(buffer, item) + more;
  }

  /** A position that was passed over is no start of a secret, whatever follows. */
  lemma NothingStartsHere(secrets: seq<Bytes>, buffer: Bytes, more: Bytes, s: Bytes)
    requires FirstMatch(secrets, buffer).None? && !Withheld(secrets, buffer)
    requires s in secrets
    ensures !(s <= buffer + more) && !(buffer + more <= s)
  {
    var whole := buffer + more;
    assert buffer == whole[..|buffer|];
    if s <= whole {
      PrefixesCompare(s, buffer, whole);
    }
  }

  /** What one pass decides at the front of the buffer, longer input does not change. */
  lemma NextIsStable(secrets: seq<Bytes>, buffer: Bytes, more: Bytes, final: bool)
    requires NonEmptySecrets(secrets) && PrefixFree(secrets)
    requires Next(secrets, buffer, false).Some?
    ensures Next(secrets, buffer + more, final) == Next(secrets, buffer, false)
  {
    var whole := buffer + more;
    match FirstMatch(secrets, buffer) {
      case Some(m) =>
        assert m <= whole by { assert m == buffer[..|m|] == whole[..|m|]; }
        PrefixesCompare(m, FirstMatch(secrets, whole).value, whole);
      case None =>
        forall s | s in secrets ensures !(s <= whole) && !(whole <= s) {
          NothingStartsHere(secrets, buffer, more, s);
        }
    }
  }

  lemma {:induction false} DrainExtends(secrets: seq<Bytes>, buffer: Bytes, more: Bytes, final: bool)
    requires NonEmptySecrets(secrets) && PrefixFree(secrets)
    ensures var first := Drain(secrets, buffer, false);
            var second := Drain(secrets, first.rest + more, final);
            Drain(secrets, buffer + more, final) == Drained(first.items + second.items, second.rest)
    decreases |buffer|
  {
    match Next(secrets, buffer, false) {
      case None =>
        var second := Drain(secrets, buffer + more, final);
        assert [] + second.items == second.items;
      case Some(item) =>
        var rest := After(buffer, item);
        NextIsStable(secrets, buffer, more, final);
        AfterAppend(buffer, more, item);
        DrainExtends(secrets, rest, more, final);
        DrainStep(secrets, buffer, false, item);
        DrainStep(secrets, buffer + more, final, item);
        var inner := Drain(secrets, rest, false);
        Assoc([item], inner.items, Drain(secrets, inner.rest + more, final).items);
    }
  }

  lemma DrainStep(secrets: seq<Bytes>, buffer: Bytes, final: bool, item: Item)
    requires NonEmptySecrets(secrets) && Next(secrets, buffer, final) == Some(item)
    ensures var d := Drain(secrets, After(buffer, item), final);
            Drain(secrets, buffer, final) == Drained([item] + d.items, d.rest)
  {
  }

  lemma {:induction false} ChunkedEqualsScanFrom(secrets: seq<Bytes>, held: Bytes, chunks: seq<Bytes>)
    requires NonEmptySecrets(secrets) && PrefixFree(secrets)
    requires Drain(secrets, held, false) == Drained([], held)
    ensures var fed := Feeds(secrets, held, chunks);
            fed.items + Drain(secrets, fed.rest, true).items == Scan(secrets, held + Concat(chunks))
    decreases |chunks|
  {
    if chunks == [] {
      assert held + Concat(chunks) == held;
      assert [] + Scan(secrets, held) == Scan(secrets, held);
    } else {
      var joined, later := held + chunks[0], Concat(chunks[1..]);
      var first := Drain(secrets, joined, false);
      var others := Feeds(secrets, first.rest, chunks[1..]);
      DrainKeepsItsRest(secrets, joined);
      ChunkedEqualsScanFrom(secrets, first.rest, chunks[1..]);
      DrainExtends(secrets, joined, later, true);
      Assoc(held, chunks[0], later);
      Assoc(first.items, others.items, Drain(secrets, others.rest, true).items);
    }
  }

  /** What a non-final pass holds back is stable, and is empty or a proper prefix of a secret. */
  lemma {:induction false} DrainKeepsItsRest(secrets: seq<Bytes>, buffer: Bytes)
    requires NonEmptySecrets(secrets)
    ensures var rest := Drain(secrets, buffer, false).rest;
            && Drain(secrets, rest, false) == Drained([], rest)
            && (rest == [] || exists s | s in secrets :: rest < s)
    decreases |buffer|
  {
    match Next(secrets, buffer, false) {
      case Some(item) => DrainKeepsItsRest(secrets, After(buffer, item));
      case None =>
        if buffer != [] {
          var s :| s in secrets && |buffer| < |s| && buffer <= s;
          assert buffer < s;
        }
    }
  }

  /** After any feeds the held buffer is empty or a proper prefix of some secret. */
  lemma {:induction false} HeldIsProperPrefix(secrets: seq<Bytes>, chunks: seq<Bytes>)
    requires NonEmptySecrets(secrets)
    ensures var rest := Feeds(secrets, [], chunks).rest;
            rest == [] || exists s | s in secrets :: rest < s
  {
    if chunks == [] {
    } else {
      var front, last := chunks[..|chunks| - 1], chunks[|chunks| - 1];
      assert chunks == front + [last];
      FeedsAppend(secrets, [], front, last);
      DrainKeepsItsRest(secrets, Feeds(secrets, [], front).rest + last);
    }
  }

  /** Prefix-free secrets: every way of cutting the input redacts like one scan. */
  lemma ChunkedEqualsScan(secrets: seq<Bytes>, chunks: seq<Bytes>)
    requires NonEmptySecrets(secrets) && PrefixFree(secrets)
    ensures Redact(secrets, chunks) == Scan(secrets, Concat(chunks))
  {
    ChunkedEqualsScanFrom(secrets, [], chunks);
    assert [] + Concat(chunks) == Concat(chunks);
  }

  ghost predicate ChunkingIsInvisible(secrets: seq<Bytes>)
    requires NonEmptySecrets(secrets)
  {
    forall chunks :: Render(Redact(secrets, chunks)) == Render(Scan(secrets, Concat(chunks)))
  }

  lemma DrainExactSecret(secrets: seq<Bytes>, secret: Bytes, final: bool)
    requires NonEmptySecrets(secrets) && LongestFirst(secrets) && secret in secrets
    ensures Drain(secrets, secret, final) == Drained([Marker(secret)], [])
  {
    FirstMatchIsLongest(secrets, secret);
    assert secret <= secret;
    var m := FirstMatch(secrets, secret).value;
    assert m == secret[..|m|] == secret;
    assert After(secret, Marker(secret)) == [];
    assert Drain(secrets, [], final) == Drained([], []);
    assert [Marker(secret)] + [] == [Marker(secret)];
  }

  lemma FirstChunkExactSecret(secrets: seq<Bytes>, short: Bytes, rest: Bytes)
    requires NonEmptySecrets(secrets) && LongestFirst(secrets) && short in secrets
    ensures Redact(secrets, [short, rest]) == [Marker(short)] + Redact(secrets, [rest])
  {
    DrainExactSecret(secrets, short, false);
    assert [short, rest][1..] == [rest] && [] + short == short;
    var fed := Feeds(secrets, [], [rest]);
    Assoc([Marker(short)], fed.items, Drain(secrets, fed.rest, true).items);
  }

  /** With a secret that extends another, cutting right after the short one shows. */
  lemma CutAfterShortSecret(secrets: seq<Bytes>, short: Bytes, long: Bytes)
    requires NonEmptySecrets(secrets) && LongestFirst(secrets)
    requires short in secrets && long in secrets && short < long
    ensures var chunks := [short, long[|short|..]];
            && Concat(chunks) == long
            && Render(Redact(secrets, chunks)) != Render(Scan(secrets, long))
  {
    var rest := long[|short|..];
    var after := Redact(secrets, [rest]);
    ConcatOne(rest);
    assert [short, rest][1..] == [rest] && short + rest == long;
    DrainExactSecret(secrets, long, true);
    FirstChunkExactSecret(secrets, short, rest);
    RedactionIsSafe(secrets, [rest]);
    SourceCons(Marker(short), after);
    assert |Render(after)| > 0;
    assert |Render([Marker(long)])| == |MARKER|;
  }

  /** Chunking is invisible for every input exactly when the secrets are prefix-free. */
  lemma ChunkingIsInvisibleIffPrefixFree(secrets: seq<Bytes>)
    requires NonEmptySecrets(secrets) && LongestFirst(secrets)
    ensures ChunkingIsInvisible(secrets) <==> PrefixFree(secrets)
  {
    if PrefixFree(secrets) {
      forall chunks ensures Render(Redact(secrets, chunks)) == Render(Scan(secrets, Concat(chunks))) {
        ChunkedEqualsScan(secrets, chunks);
      }
    } else {
      var a, b :| a in secrets && b in secrets && a <= b && a != b;
      CutAfterShortSecret(secrets, a, b);
    }
  }

  // ---------- Safety for every secret set and every chunking

  /** Markers stand for secrets; no secret starts at a copied byte of the input. */
  ghost predicate Clean(secrets: seq<Bytes>, items: seq<Item>, tail: Bytes) {
    items != [] ==>
      && (match items[0]
          case Marker(m) => m in secrets
          case Literal(_) => forall s | s in secrets :: !(s <= Source(items) + tail))
      && Clean(secrets, items[1..], tail)
  }

  lemma {:induction false} DrainConserves(secrets: seq<Bytes>, buffer: Bytes, final: bool)
    requires NonEmptySecrets(secrets)
    ensures var d := Drain(secrets, buffer, final);
            Source(d.items) + d.rest == buffer && (final ==> d.rest == [])
    decreases |buffer|
  {
    match Next(secrets, buffer, final) {
      case None =>
        assert Source([]) + buffer == buffer;
      case Some(item) =>
        var d := Drain(secrets, After(buffer, item), final);
        DrainStep(secrets, buffer, final, item);
        DrainConserves(secrets, After(buffer, item), final);
        SourceCons(item, d.items);
        Assoc(Piece(item), Source(d.items), d.rest);
    }
  }

  lemma {:induction false} DrainIsClean(secrets: seq<Bytes>, buffer: Bytes, final: bool, future: Bytes)
    requires NonEmptySecrets(secrets)
    requires final ==> future == []
    ensures var d := Drain(secrets, buffer, final); Clean(secrets, d.items, d.rest + future)
    decreases |buffer|
  {
    match Next(secrets, buffer, final) {
      case None =>
      case Some(item) =>
        var d := Drain(secrets, After(buffer, item), final);
        DrainStep(secrets, buffer, final, item);
        DrainIsClean(secrets, After(buffer, item), final, future);
        DrainConserves(secrets, buffer, final);
        Assoc(Source([item] + d.items), d.rest, future);
        forall s | item.Literal? && s in secrets ensures !(s <= buffer + future) {
          if final {
            assert buffer + future == buffer;
          } else {
            NothingStartsHere(secrets, buffer, future, s);
          }
        }
        CleanCons(secrets, item, d.items, d.rest + future);
    }
  }

  lemma CleanCons(secrets: seq<Bytes>, item: Item, items: seq<Item>, tail: Bytes)
    requires Clean(secrets, items, tail)
    requires item.Marker? ==> item.secret in secrets
    requires item.Literal? ==> forall s | s in secrets :: !(s <= Source([item] + items) + tail)
    ensures Clean(secrets, [item] + items, tail)
  {
    assert ([item] + items)[1..] == items;
  }

  lemma {:induction false} CleanAppend(secrets: seq<Bytes>, a: seq<Item>, b: seq<Item>, tail: Bytes)
    requires Clean(secrets, a, Source(b) + tail) && Clean(secrets, b, tail)
    ensures Clean(secrets, a + b, tail)
  {
    if a == [] {
      assert a + b == b;
    } else {
      CleanAppend(secrets, a[1..], b, tail);
      SourceAppend(a, b);
      Assoc(Source(a), Source(b), tail);
      Assoc([a[0]], a[1..], b);
      assert [a[0]] + a[1..] == a;
      CleanCons(secrets, a[0], a[1..] + b, tail);
    }
  }

  lemma {:induction false} FeedsAreClean(secrets: seq<Bytes>, held: Bytes, chunks: seq<Bytes>, future: Bytes)
    requires NonEmptySecrets(secrets)
    ensures var fed := Feeds(secrets, held, chunks);
            && Source(fed.items) + fed.rest == held + Concat(chunks)
            && Clean(secrets, fed.items, fed.rest + future)
    decreases |chunks|
  {
    if chunks == [] {
      assert held + Concat(chunks) == held;
    } else {
      var joined, later := held + chunks[0], Concat(chunks[1..]);
      var first := Drain(secrets, joined, false);
      var others := Feeds(secrets, first.rest, chunks[1..]);
      FeedsAreClean(secrets, first.rest, chunks[1..], future);
      DrainConserves(secrets, joined, false);
      DrainIsClean(secrets, joined, false, later + future);
      Assoc(first.rest, later, future);
      Assoc(Source(others.items), others.rest, future);
      CleanAppend(secrets, first.items, others.items, others.rest + future);
      SourceAppend(first.items, others.items);
      Assoc(held, chunks[0], later);
      Assoc(Source(first.items), Source(others.items), others.rest);
      Assoc(Source(first.items), first.rest, later);
    }
  }

  /** Safety: the output accounts for every input byte exactly once, every marker
      stands for one secret, and no secret starts at a copied byte. */
  lemma RedactionIsSafe(secrets: seq<Bytes>, chunks: seq<Bytes>)
    requires NonEmptySecrets(secrets)
    ensures var items := Redact(secrets, chunks);
            Source(items) == Concat(chunks) && Clean(secrets, items, [])
  {
    var fed := Feeds(secrets, [], chunks);
    var last := Drain(secrets, fed.rest, true);
    FeedsAreClean(secrets, [], chunks, []);
    DrainConserves(secrets, fed.rest, true);
    DrainIsClean(secrets, fed.rest, true, []);
    assert last.rest + [] == [] && fed.rest + [] == Source(last.items) + [];
    CleanAppend(secrets, fed.items, last.items, []);
    SourceAppend(fed.items, last.items);
    assert [] + Concat(chunks) == Concat(chunks);
  }

  ghost predicate AllLiteral(items: seq<Item>) {
    forall k | 0 <= k < |items| :: items[k].Literal?
  }

  ghost predicate Occurs(needle: Bytes, text: Bytes) {
    needle <= text || (text != [] && Occurs(needle, text[1..]))
  }

  /** No stretch of copied bytes contains a whole secret. */
  lemma CopiedRunHoldsNoSecret(secrets: seq<Bytes>, chunks: seq<Bytes>, before: seq<Item>, run: seq<Item>,
                               later: seq<Item>, secret: Bytes)
    requires NonEmptySecrets(secrets) && secret in secrets
    requires Redact(secrets, chunks) == before + (run + later) && AllLiteral(run)
    ensures Render(run) == Source(run) && !Occurs(secret, Render(run))
  {
    RedactionIsSafe(secrets, chunks);
    CleanSuffix(secrets, before, run + later, []);
    CleanRunHoldsNoSecret(secrets, run, later, secret);
  }

  lemma {:induction false} CleanRunHoldsNoSecret(secrets: seq<Bytes>, run: seq<Item>, later: seq<Item>, secret: Bytes)
    requires NonEmptySecrets(secrets) && secret in secrets
    requires AllLiteral(run) && Clean(secrets, run + later, [])
    ensures Render(run) == Source(run) && !Occurs(secret, Render(run))
  {
    if run == [] {
    } else {
      assert (run + later)[1..] == run[1..] + later && (run + later)[0] == run[0];
      CleanRunHoldsNoSecret(secrets, run[1..], later, secret);
      SourceAppend(run, later);
      assert Source(run + later) + [] == Source(run) + Source(later);
      PrefixThenMore(secret, Source(run), Source(later));
      assert Render(run)[1..] == Render(run[1..]);
    }
  }

  lemma {:induction false} CleanSuffix(secrets: seq<Bytes>, before: seq<Item>, after: seq<Item>, tail: Bytes)
    requires Clean(secrets, before + after, tail)
    ensures Clean(secrets, after, tail)
  {
    if before == [] {
      assert before + after == after;
    } else {
      assert (before + after)[1..] == before[1..] + after;
      CleanSuffix(secrets, before[1..], after, tail);
    }
  }

  // ---------- What a reader of the output sees

  /** The bytes of "[REDACTED]". */
  const TEN_BYTES: Bytes := [91, 82, 69, 68, 65, 67, 84, 69, 68, 93]

  /** A secret alone shows as those ten bytes and no more. */
  lemma SecretShowsAsTenBytes(secrets: seq<Bytes>, secret: Bytes)
    requires NonEmptySecrets(secrets) && LongestFirst(secrets) && secret in secrets
    ensures Render(Scan(secrets, secret)) == TEN_BYTES
  {
    DrainExactSecret(secrets, secret, true);
    assert [Marker(secret)][1..] == [] && TEN_BYTES + [] == TEN_BYTES;
  }

  /** Wherever a unit stands, a marker shows the ten bytes, and a literal its own byte. */
  lemma {:induction false} EachUnitShows(before: seq<Item>, item: Item, later: seq<Item>)
    ensures Render(before + [item] + later)
         == Render(before) + (match item case Marker(_) => TEN_BYTES case Literal(b) => [b]) + Render(later)
  {
    RenderAppend(before + [item], later);
    RenderAppend(before, [item]);
    assert [item][1..] == [] && Shown(item) + [] == Shown(item);
  }

  /** Same literals, and markers in the same places. */
  ghost predicate SameButSecrets(a: seq<Item>, b: seq<Item>) {
    |a| == |b| && forall i | 0 <= i < |a| :: a[i] == b[i] || (a[i].Marker? && b[i].Marker?)
  }

  /** The output tells nothing about which secrets its markers stand for. */
  lemma {:induction false} SecretsDoNotShow(a: seq<Item>, b: seq<Item>)
    ensures SameButSecrets(a, b) ==> Render(a) == Render(b)
  {
    if a == [] {
    } else if SameButSecrets(a, b) {
      assert a[0] == b[0] || (a[0].Marker? && b[0].Marker?);
      SecretsDoNotShow(a[1..], b[1..]);
    }
  }

  /** `_LiteralRedactor`: a buffer drained in place. */
  class LiteralRedactor {
    const secrets: seq<Bytes>
    var buffer: Bytes

    constructor (secrets: seq<Bytes>)
      ensures this.secrets == secrets && buffer == []
    {
      this.secrets := secrets;
      buffer := [];
    }

    method Feed(data: Bytes) returns (output: Bytes)
      requires NonEmptySecrets(secrets)
      modifies this`buffer
      ensures var d := Drain(secrets, old(buffer) + data, false);
              output == Render(d.items) && buffer == d.rest
    {
      buffer := buffer + data;
      output := DrainBuffer(false);
    }

    method Finish() returns (output: Bytes)
      requires NonEmptySecrets(secrets)
      modifies this`buffer
      ensures output == Render(Drain(secrets, old(buffer), true).items) && buffer == []
    {
      DrainConserves(secrets, buffer, true);
      output := DrainBuffer(true);
    }

    method DrainBuffer(final: bool) returns (output: Bytes)
      requires NonEmptySecrets(secrets)
      modifies this`buffer
      ensures var d := Drain(secrets, old(buffer), final);
              output == Render(d.items) && buffer == d.rest
    {
      output := [];
      ghost var goal := Drain(secrets, buffer, final);
      assert [] + Render(goal.items) == Render(goal.items);
      while buffer != []
        invariant output + Render(Drain(secrets, buffer, final).items) == Render(goal.items)
        invariant Drain(secrets, buffer, final).rest == goal.rest
        decreases |buffer|
      {
        ghost var next, was, done := Next(secrets, buffer, final), buffer, output;
        match FirstMatch(secrets, buffer) {
          case Some(m) =>
            output := output + MARKER;
            buffer := buffer[|m|..];
          case None =>
            if !final && Withheld(secrets, buffer) {
              assert Drain(secrets, buffer, final) == Drained([], buffer);
              break;
            }
            output := output + [buffer[0]];
            buffer := buffer[1..];
        }
        DrainStep(secrets, was, final, next.value);
        SourceCons(next.value, Drain(secrets, buffer, final).items);
        Assoc(done, Shown(next.value), Render(Drain(secrets, buffer, final).items));
      }
    }
  }
}
