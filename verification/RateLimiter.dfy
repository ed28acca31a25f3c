/**
 The sliding-window rate limiters: the in-memory one that prunes and sweeps, the one
 that only prunes, and the Redis script with key expiry. All three answer as if they
 remembered every admission.
 */
module RateLimiter {
  import opened Wrappers

  datatype Request = Request(bucket: string, at: real)

  datatype Answer = Answer(allowed: bool, remaining: nat)

  // ---------- The specification: the full admission history

  /** The admission times of one bucket. */
  function On(admitted: seq<Request>, bucket: string): seq<real> {
    if admitted == [] then []
    else
      var last := admitted[|admitted| - 1];
      On(admitted[..|admitted| - 1], bucket) + (if last.bucket == bucket then [last.at] else [])
  }

  /** How many times are later than the cutoff. */
  function Recent(times: seq<real>, cutoff: real): nat {
    if times == [] then 0 else (if times[0] > cutoff then 1 else 0) + Recent(times[1..], cutoff)
  }

  function Judge(limit: int, window: real, admitted: seq<Request>, request: Request): Answer {
    var used := Recent(On(admitted, request.bucket), request.at - window);
    if limit <= 0 then Answer(true, 0)
    else if used >= limit then Answer(false, 0)
    else Answer(true, limit - used - 1)
  }

  /** Everything ever admitted, request by request. */
  function Admitted(limit: int, window: real, requests: seq<Request>): seq<Request> {
    if requests == [] then []
    else
      var last := requests[|requests| - 1];
      var before := Admitted(limit, window, requests[..|requests| - 1]);
      if Judge(limit, window, before, last).allowed then before + [last] else before
  }

  /** How many times fall in the half-open interval (from, until]. */
  function Within(times: seq<real>, from: real, until: real): nat {
    if times == [] then 0 else (if from < times[0] <= until then 1 else 0) + Within(times[1..], from, until)
  }

  // ---------- Counting

  lemma {:induction false} RecentAppend(a: seq<real>, b: seq<real>, cutoff: real)
    ensures Recent(a + b, cutoff) == Recent(a, cutoff) + Recent(b, cutoff)
  {
    if a == [] {
      assert a + b == b;
    } else {
      assert (a + b)[1..] == a[1..] + b;
      RecentAppend(a[1..], b, cutoff);
    }
  }

  lemma {:induction false} WithinSnoc(a: seq<real>, x: real, from: real, until: real)
    ensures Within(a + [x], from, until) == Within(a, from, until) + (if from < x <= until then 1 else 0)
  {
    if a == [] {
      assert a + [x] == [x] && [x][1..] == [];
    } else {
      assert (a + [x])[1..] == a[1..] + [x];
      WithinSnoc(a[1..], x, from, until);
    }
  }

  lemma {:induction false} WithinIsRecent(times: seq<real>, cutoff: real, from: real, until: real)
    requires cutoff <= from
    ensures Within(times, from, until) <= Recent(times, cutoff)
  {
    if times == [] {
    } else {
      WithinIsRecent(times[1..], cutoff, from, until);
    }
  }

  lemma {:induction false} RecentBounds(times: seq<real>, cutoff: real)
    ensures (forall i | 0 <= i < |times| :: times[i] <= cutoff) ==> Recent(times, cutoff) == 0
    ensures (forall i | 0 <= i < |times| :: times[i] > cutoff) ==> Recent(times, cutoff) == |times|
  {
    if times == [] {
    } else {
      RecentBounds(times[1..], cutoff);
    }
  }

  lemma OnSnoc(admitted: seq<Request>, last: Request, bucket: string)
    ensures last.bucket == bucket ==> On(admitted + [last], bucket) == On(admitted, bucket) + [last.at]
    ensures last.bucket != bucket ==> On(admitted + [last], bucket) == On(admitted, bucket)
  {
    assert (admitted + [last])[..|admitted|] == admitted;
    assert On(admitted, bucket) + [] == On(admitted, bucket);
  }

  lemma AdmittedSnoc(limit: int, window: real, requests: seq<Request>, last: Request)
    ensures var before := Admitted(limit, window, requests);
            Admitted(limit, window, requests + [last])
            == if Judge(limit, window, before, last).allowed then before + [last] else before
  {
    assert (requests + [last])[..|requests|] == requests;
  }

  lemma AdmissionFits(limit: int, window: real, before: seq<Request>, last: Request, bucket: string, t: real)
    requires limit > 0 && Judge(limit, window, before, last).allowed
    requires Within(On(before, bucket), t - window, t) <= limit
    ensures Within(On(before + [last], bucket), t - window, t) <= limit
  {
    hide On;
    var times := On(before, bucket);
    OnSnoc(before, last, bucket);
    if last.bucket == bucket {
      WithinSnoc(times, last.at, t - window, t);
      if t - window < last.at <= t {
        WithinIsRecent(times, last.at - window, t - window, t);
      }
    }
  }

  /** No bucket is admitted more than `limit` times in any interval (t - window, t]. */
  lemma {:induction false} NoIntervalOverflows(limit: int, window: real, requests: seq<Request>, bucket: string, t: real)
    requires limit > 0
    ensures Within(On(Admitted(limit, window, requests), bucket), t - window, t) <= limit
  {
    hide Within, Judge;
    if requests == [] {
      WithinNothing(t - window, t);
    } else {
      var front, last := requests[..|requests| - 1], requests[|requests| - 1];
      var before := Admitted(limit, window, front);
      NoIntervalOverflows(limit, window, front, bucket, t);
      if Judge(limit, window, before, last).allowed {
        AdmissionFits(limit, window, before, last, bucket, t);
      }
    }
  }

  lemma WithinNothing(from: real, until: real)
    ensures Within([], from, until) == 0
  {
  }

  // ---------- A pruned list against the full history

  ghost predicate Sorted(times: seq<real>) {
    forall i, j | 0 <= i < j < |times| :: times[i] <= times[j]
  }

  /** `kept` is what is left of `times` after dropping only times up to the cutoff. */
  ghost predicate Remembers(kept: seq<real>, times: seq<real>, cutoff: real) {
    && |kept| <= |times| && kept == times[|times| - |kept|..]
    && Sorted(times)
    && forall i | 0 <= i < |times| - |kept| :: times[i] <= cutoff
  }

  ghost predicate Before(times: seq<real>, now: real) {
    forall i | 0 <= i < |times| :: times[i] <= now
  }

  lemma RemembersCount(kept: seq<real>, times: seq<real>, cutoff: real)
    requires Remembers(kept, times, cutoff) && forall i | 0 <= i < |kept| :: kept[i] > cutoff
    ensures |kept| == Recent(times, cutoff)
  {
    var dropped := times[..|times| - |kept|];
    assert times == dropped + kept;
    RecentAppend(dropped, kept, cutoff);
    RecentBounds(dropped, cutoff);
    RecentBounds(kept, cutoff);
  }

  lemma RemembersAppend(kept: seq<real>, times: seq<real>, cutoff: real, now: real)
    requires Remembers(kept, times, cutoff) && Before(times, now)
    ensures Remembers(kept + [now], times + [now], cutoff)
  {
    var longer := times + [now];
    assert longer[|longer| - |kept + [now]|..] == kept + [now];
  }

  function Stored(events: map<string, seq<real>>, bucket: string): seq<real> {
    if bucket in events then events[bucket] else []
  }

  ghost predicate BucketRemembers(kept: seq<real>, times: seq<real>, cutoff: real, now: real) {
    Before(times, now) && Remembers(kept, times, cutoff)
  }

  /** The pruned store agrees with the full history on every bucket. */
  ghost predicate StoreRemembers(events: map<string, seq<real>>, admitted: seq<Request>, cutoff: real, now: real) {
    forall b :: BucketRemembers(Stored(events, b), On(admitted, b), cutoff, now)
  }

  lemma StoreLater(events: map<string, seq<real>>, admitted: seq<Request>, cutoff: real, was: real, later: real, now: real)
    requires StoreRemembers(events, admitted, cutoff, was) && cutoff <= later && was <= now
    ensures StoreRemembers(events, admitted, later, now)
  {
    hide On, Stored;
    forall b ensures BucketRemembers(Stored(events, b), On(admitted, b), later, now) {
      assert BucketRemembers(Stored(events, b), On(admitted, b), cutoff, was);
    }
  }

  lemma StoreReplaces(events: map<string, seq<real>>, admitted: seq<Request>, cutoff: real, now: real, bucket: string, kept: seq<real>)
    requires StoreRemembers(events, admitted, cutoff, now) && Remembers(kept, On(admitted, bucket), cutoff)
    ensures StoreRemembers(events[bucket := kept], admitted, cutoff, now)
  {
    hide On, Remembers, Before;
    var after := events[bucket := kept];
    forall b ensures BucketRemembers(Stored(after, b), On(admitted, b), cutoff, now) {
      assert BucketRemembers(Stored(events, b), On(admitted, b), cutoff, now);
    }
  }

  lemma StoreAdmits(events: map<string, seq<real>>, admitted: seq<Request>, cutoff: real, request: Request, kept: seq<real>)
    requires StoreRemembers(events, admitted, cutoff, request.at)
    requires Remembers(kept, On(admitted, request.bucket), cutoff)
    ensures StoreRemembers(events[request.bucket := kept + [request.at]], admitted + [request], cutoff, request.at)
  {
    hide On, Remembers;
    var after := events[request.bucket := kept + [request.at]];
    forall b ensures BucketRemembers(Stored(after, b), On(admitted + [request], b), cutoff, request.at) {
      OnSnoc(admitted, request, b);
      assert BucketRemembers(Stored(events, b), On(admitted, b), cutoff, request.at);
      if b == request.bucket {
        RemembersAppend(kept, On(admitted, b), cutoff, request.at);
      }
    }
  }

  /** Every stored bucket is nonempty, with its newest event later than the bound. */
  ghost predicate AllNewerThan(events: map<string, seq<real>>, bound: real) {
    forall b | b in events :: Newest(events[b]).Some? && Newest(events[b]).value > bound
  }

  function Newest(times: seq<real>): Option<real> {
    if times == [] then None else Some(times[|times| - 1])
  }

  /** `InMemoryRateLimiter` with the periodic sweep of idle buckets. */
  class SweptLimiter {
    const limit: int
    const window: real
    var events: map<string, seq<real>>
    var lastSweep: real
    ghost var now: real
    ghost var requests: seq<Request>

    ghost predicate Valid()
      reads this
    {
      && lastSweep <= now
      && (limit > 0 ==> StoreRemembers(events, Admitted(limit, window, requests), now - window, now))
      && (limit <= 0 ==> events == map[])
      && (window > 0.0 ==> AllNewerThan(events, lastSweep - window))
    }

    constructor (limit: int, window: real, clock: real)
      ensures Valid() && requests == [] && now == clock && this.limit == limit && this.window == window
    {
      this.limit, this.window := limit, window;
      events, lastSweep := map[], clock;
      now, requests := clock, [];
    }

    method Allow(bucket: string, clock: real) returns (answer: Answer)
      requires Valid() && now <= clock
      modifies this
      ensures Valid() && now == clock && requests == old(requests) + [Request(bucket, clock)]
      ensures answer == Judge(limit, window, Admitted(limit, window, old(requests)), Request(bucket, clock))
      ensures window > 0.0 && limit > 0 ==> bucket in events
      ensures window > 0.0 && limit > 0 ==> AllNewerThan(events, clock - 2.0 * window)
    {
      hide StoreRemembers, Remembers, Before, On, Recent, Admitted;
      ghost var admitted, request := Admitted(limit, window, requests), Request(bucket, clock);
      AdmittedSnoc(limit, window, requests, request);
      requests := requests + [request];
      if limit <= 0 {
        now := clock;
        return Answer(true, 0);
      }
      Sweep(clock, admitted);
      assert BucketRemembers(Stored(events, bucket), On(admitted, bucket), clock - window, clock) by {
        StoredBucket(events, admitted, clock - window, clock, bucket);
      }
      var kept := Prune(Stored(events, bucket), clock - window, On(admitted, bucket));
      var remaining := if limit - |kept| > 0 then limit - |kept| else 0;
      now := clock;
      if remaining == 0 {
        StoreReplaces(events, admitted, clock - window, clock, bucket, kept);
        events := events[bucket := kept];
        return Answer(false, 0);
      }
      StoreAdmits(events, admitted, clock - window, request, kept);
      events := events[bucket := kept + [clock]];
      return Answer(true, remaining - 1);
    }

    /** At most once per window, forgets every bucket whose newest event has aged out. */
    method Sweep(clock: real, ghost admitted: seq<Request>)
      requires lastSweep <= now <= clock && StoreRemembers(events, admitted, now - window, now)
      modifies this`events, this`lastSweep
      ensures StoreRemembers(events, admitted, clock - window, clock)
      ensures lastSweep <= clock && (clock - lastSweep < window || lastSweep == clock)
      ensures window > 0.0 && old(AllNewerThan(events, lastSweep - window)) ==> AllNewerThan(events, lastSweep - window)
    {
      hide StoreRemembers, Remembers, Before, On;
      StoreLater(events, admitted, now - window, now, clock - window, clock);
      if clock - lastSweep < window {
        return;
      }
      lastSweep := clock;
      var cutoff := clock - window;
      var idle := set b | b in events && (events[b] == [] || events[b][|events[b]| - 1] <= cutoff);
      StoreForgets(events, admitted, cutoff, clock, idle);
      events := events - idle;
    }
  }

  lemma StoredBucket(events: map<string, seq<real>>, admitted: seq<Request>, cutoff: real, now: real, bucket: string)
    requires StoreRemembers(events, admitted, cutoff, now)
    ensures BucketRemembers(Stored(events, bucket), On(admitted, bucket), cutoff, now)
  {
  }

  lemma StoreForgets(events: map<string, seq<real>>, admitted: seq<Request>, cutoff: real, now: real, idle: set<string>)
    requires StoreRemembers(events, admitted, cutoff, now)
    requires forall b | b in idle :: b in events && (events[b] == [] || events[b][|events[b]| - 1] <= cutoff)
    ensures StoreRemembers(events - idle, admitted, cutoff, now)
  {
    hide On;
    forall b ensures BucketRemembers(Stored(events - idle, b), On(admitted, b), cutoff, now) {
      assert BucketRemembers(Stored(events, b), On(admitted, b), cutoff, now);
    }
  }

  /** Pops expired events from the front. */
  method Prune(events: seq<real>, cutoff: real, ghost times: seq<real>) returns (kept: seq<real>)
    requires Remembers(events, times, cutoff)
    ensures Remembers(kept, times, cutoff) && |kept| == Recent(times, cutoff)
    ensures kept != [] ==> Newest(kept) == Newest(events)
    ensures forall i | 0 <= i < |kept| :: kept[i] > cutoff
  {
    kept := events;
    while kept != [] && kept[0] <= cutoff
      invariant Remembers(kept, times, cutoff)
      invariant kept != [] ==> Newest(kept) == Newest(events)
      decreases |kept|
    {
      assert times[|times| - |kept|] == kept[0];
      kept := kept[1..];
    }
    RemembersCount(kept, times, cutoff);
  }

  /** `InMemoryRateLimiter` of the root gateway: pruned, never swept. */
  class PrunedLimiter {
    const limit: int
    const window: real
    var events: map<string, seq<real>>
    ghost var now: real
    ghost var requests: seq<Request>

    ghost predicate Valid()
      reads this
    {
      limit > 0 ==> StoreRemembers(events, Admitted(limit, window, requests), now - window, now)
    }

    constructor (limit: int, window: real, clock: real)
      ensures Valid() && requests == [] && now == clock && this.limit == limit && this.window == window
    {
      this.limit, this.window, events := limit, window, map[];
      now, requests := clock, [];
    }

    method Allow(bucket: string, clock: real) returns (answer: Answer)
      requires Valid() && now <= clock
      modifies this
      ensures Valid() && now == clock && requests == old(requests) + [Request(bucket, clock)]
      ensures answer == Judge(limit, window, Admitted(limit, window, old(requests)), Request(bucket, clock))
    {
      hide StoreRemembers, Remembers, Before, On, Recent, Admitted;
      ghost var admitted, request := Admitted(limit, window, requests), Request(bucket, clock);
      AdmittedSnoc(limit, window, requests, request);
      if limit <= 0 {
        requests, now := requests + [request], clock;
        return Answer(true, 0);
      }
      StoreLater(events, admitted, now - window, now, clock - window, clock);
      requests, now := requests + [request], clock;
      assert BucketRemembers(Stored(events, bucket), On(admitted, bucket), clock - window, clock) by {
        StoredBucket(events, admitted, clock - window, clock, bucket);
      }
      var kept := Prune(Stored(events, bucket), clock - window, On(admitted, bucket));
      var remaining := if limit - |kept| > 0 then limit - |kept| else 0;
      if remaining == 0 {
        StoreReplaces(events, admitted, clock - window, clock, bucket, kept);
        events := events[bucket := kept];
        return Answer(false, 0);
      }
      StoreAdmits(events, admitted, clock - window, request, kept);
      events := events[bucket := kept + [clock]];
      return Answer(true, remaining - 1);
    }
  }

  // ---------- The Redis script

  /** A sorted set of admission scores and the time its key expires. */
  datatype Key = Key(scores: seq<real>, expireAt: real)

  function Above(scores: seq<real>, cutoff: real): (r: seq<real>)
    ensures forall i | 0 <= i < |r| :: r[i] > cutoff
  {
    if scores == [] then []
    else (if scores[0] > cutoff then [scores[0]] else []) + Above(scores[1..], cutoff)
  }

  lemma {:induction false} AboveAll(scores: seq<real>, cutoff: real)
    requires forall i | 0 <= i < |scores| :: scores[i] > cutoff
    ensures Above(scores, cutoff) == scores
  {
    if scores == [] {
    } else {
      AboveAll(scores[1..], cutoff);
    }
  }

  lemma {:induction false} AboveRemembers(kept: seq<real>, times: seq<real>, cutoff: real)
    requires Remembers(kept, times, cutoff)
    ensures Remembers(Above(kept, cutoff), times, cutoff)
    decreases |kept|
  {
    if kept == [] {
    } else {
      if kept[0] > cutoff {
        assert forall i | 0 <= i < |kept| :: kept[i] == times[|times| - |kept| + i];
        AboveAll(kept, cutoff);
      } else {
        assert times[|times| - |kept|] == kept[0];
        AboveRemembers(kept[1..], times, cutoff);
      }
    }
  }

  function Scores(keys: map<string, Key>, bucket: string): seq<real> {
    if bucket in keys then keys[bucket].scores else []
  }

  /** A key remembers its bucket, and what it holds is stale once it expires. */
  ghost predicate KeyRemembers(keys: map<string, Key>, times: seq<real>, bucket: string, window: real, now: real) {
    && BucketRemembers(Scores(keys, bucket), times, now - window, now)
    && (bucket in keys ==> Before(times, keys[bucket].expireAt - window))
  }

  ghost predicate KeysRemember(keys: map<string, Key>, admitted: seq<Request>, window: real, now: real) {
    forall b :: KeyRemembers(keys, On(admitted, b), b, window, now)
  }

  lemma KeysLater(keys: map<string, Key>, admitted: seq<Request>, window: real, was: real, now: real)
    requires KeysRemember(keys, admitted, window, was) && was <= now
    ensures KeysRemember(keys, admitted, window, now)
  {
    hide On;
    forall b ensures KeyRemembers(keys, On(admitted, b), b, window, now) {
      assert KeyRemembers(keys, On(admitted, b), b, window, was);
    }
  }

  lemma ExpiredRemembers(times: seq<real>, expireAt: real, window: real, now: real)
    requires Sorted(times) && Before(times, expireAt - window) && expireAt < now
    ensures Remembers([], times, now - window)
  {
  }

  lemma AboveNothing(cutoff: real)
    ensures Above([], cutoff) == []
  {
  }

  lemma RemembersSorted(kept: seq<real>, times: seq<real>, cutoff: real)
    requires Remembers(kept, times, cutoff)
    ensures Sorted(times)
  {
  }

  lemma LiveOrExpired(keys: map<string, Key>, times: seq<real>, bucket: string, window: real, now: real)
    requires KeyRemembers(keys, times, bucket, window, now)
    ensures var live := bucket in keys && now <= keys[bucket].expireAt;
            Remembers(Above(if live then keys[bucket].scores else [], now - window), times, now - window)
  {
    hide Before, Remembers, Above, Sorted;
    AboveNothing(now - window);
    RemembersSorted(Scores(keys, bucket), times, now - window);
    if bucket in keys && now <= keys[bucket].expireAt {
      AboveRemembers(keys[bucket].scores, times, now - window);
    } else if bucket in keys {
      ExpiredRemembers(times, keys[bucket].expireAt, window, now);
    }
  }

  /** What the script finds above the cutoff in a key, live or expired, is what it should count. */
  lemma KeyCounts(keys: map<string, Key>, times: seq<real>, bucket: string, window: real, now: real)
    requires KeyRemembers(keys, times, bucket, window, now)
    ensures var live := bucket in keys && now <= keys[bucket].expireAt;
            var scores := Above(if live then keys[bucket].scores else [], now - window);
            Remembers(scores, times, now - window) && |scores| == Recent(times, now - window)
  {
    hide KeyRemembers, Remembers, Above, Recent;
    LiveOrExpired(keys, times, bucket, window, now);
    var live := bucket in keys && now <= keys[bucket].expireAt;
    RemembersCount(Above(if live then keys[bucket].scores else [], now - window), times, now - window);
  }

  lemma KeysReject(keys: map<string, Key>, admitted: seq<Request>, window: real, now: real, bucket: string, scores: seq<real>)
    requires KeysRemember(keys, admitted, window, now) && Remembers(scores, On(admitted, bucket), now - window)
    ensures KeysRemember(keys[bucket := Key(scores, now + window)], admitted, window, now)
  {
    hide On, Remembers;
    var after := keys[bucket := Key(scores, now + window)];
    forall b ensures KeyRemembers(after, On(admitted, b), b, window, now) {
      assert KeyRemembers(keys, On(admitted, b), b, window, now);
    }
  }

  lemma KeysAdmit(keys: map<string, Key>, admitted: seq<Request>, window: real, request: Request, scores: seq<real>)
    requires KeysRemember(keys, admitted, window, request.at)
    requires Remembers(scores, On(admitted, request.bucket), request.at - window)
    ensures KeysRemember(keys[request.bucket := Key(scores + [request.at], request.at + window)],
                         admitted + [request], window, request.at)
  {
    hide On, Remembers;
    var after := keys[request.bucket := Key(scores + [request.at], request.at + window)];
    forall b ensures KeyRemembers(after, On(admitted + [request], b), b, window, request.at) {
      OnSnoc(admitted, request, b);
      assert KeyRemembers(keys, On(admitted, b), b, window, request.at);
      if b == request.bucket {
        RemembersAppend(scores, On(admitted, b), request.at - window, request.at);
      }
    }
  }

  /** `RedisRateLimiter`: the script runs atomically on the server's clock. */
  class RedisLimiter {
    const limit: int
    const window: real
    var keys: map<string, Key>
    ghost var now: real
    ghost var requests: seq<Request>

    ghost predicate Valid()
      reads this
    {
      limit > 0 ==> KeysRemember(keys, Admitted(limit, window, requests), window, now)
    }

    constructor (limit: int, window: real, clock: real)
      ensures Valid() && requests == [] && now == clock && this.limit == limit && this.window == window
    {
      this.limit, this.window, keys := limit, window, map[];
      now, requests := clock, [];
    }

    method Allow(bucket: string, clock: real) returns (answer: Answer)
      requires Valid() && now <= clock
      modifies this
      ensures Valid() && now == clock && requests == old(requests) + [Request(bucket, clock)]
      ensures answer == Judge(limit, window, Admitted(limit, window, old(requests)), Request(bucket, clock))
    {
      hide KeysRemember, Remembers, Before, On, Recent, Admitted, Above;
      ghost var admitted, request := Admitted(limit, window, requests), Request(bucket, clock);
      AdmittedSnoc(limit, window, requests, request);
      if limit <= 0 {
        requests, now := requests + [request], clock;
        return Answer(true, 0);
      }
      KeysLater(keys, admitted, window, now, clock);
      requests, now := requests + [request], clock;
      var live := bucket in keys && clock <= keys[bucket].expireAt;
      var scores := Above(if live then keys[bucket].scores else [], clock - window);
      KeyOf(keys, admitted, window, clock, bucket);
      KeyCounts(keys, On(admitted, bucket), bucket, window, clock);
      if |scores| >= limit {
        KeysReject(keys, admitted, window, clock, bucket, scores);
        keys := keys[bucket := Key(scores, clock + window)];
        return Answer(false, 0);
      }
      KeysAdmit(keys, admitted, window, request, scores);
      keys := keys[bucket := Key(scores + [clock], clock + window)];
      return Answer(true, limit - |scores| - 1);
    }
  }

  lemma KeyOf(keys: map<string, Key>, admitted: seq<Request>, window: real, now: real, bucket: string)
    requires KeysRemember(keys, admitted, window, now)
    ensures KeyRemembers(keys, On(admitted, bucket), bucket, window, now)
  {
  }
}
