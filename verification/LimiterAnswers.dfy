/**
 What the limiters' answers mean for one client: admitted exactly while there is room in its own window.
 */
module LimiterAnswers {
  import opened Wrappers
  import opened RateLimiter

  /** The admissions of one bucket later than the cutoff. */
  function Later(admitted: seq<Request>, bucket: string, cutoff: real): nat {
    if admitted == [] then 0
    else
      var last := admitted[|admitted| - 1];
      Later(admitted[..|admitted| - 1], bucket, cutoff) + (if last.bucket == bucket && last.at > cutoff then 1 else 0)
  }

  lemma {:induction false} LaterIsRecent(admitted: seq<Request>, bucket: string, cutoff: real)
    ensures Recent(On(admitted, bucket), cutoff) == Later(admitted, bucket, cutoff)
  {
    if admitted == [] {
    } else {
      var front, last := admitted[..|admitted| - 1], admitted[|admitted| - 1];
      LaterIsRecent(front, bucket, cutoff);
      RecentAppend(On(front, bucket), if last.bucket == bucket then [last.at] else [], cutoff);
      assert [last.at][1..] == [];
    }
  }

  /** With a limit, a request is admitted exactly when fewer than `limit` admissions of its own bucket lie in the window
      before it, and it is told how many more there can be; without one, every request is admitted. */
  lemma AdmittedIffRoom(limit: int, window: real, requests: seq<Request>, request: Request)
    ensures var admitted := Admitted(limit, window, requests);
            var answer, used := Judge(limit, window, admitted, request), Later(admitted, request.bucket, request.at - window);
            && (limit > 0 ==> (answer.allowed <==> used < limit) && answer.remaining == if used < limit then limit - used - 1 else 0)
            && (limit <= 0 ==> answer == Answer(true, 0))
            && Admitted(limit, window, requests + [request]) == if limit <= 0 || used < limit then admitted + [request] else admitted
  {
    LaterIsRecent(Admitted(limit, window, requests), request.bucket, request.at - window);
    AdmittedSnoc(limit, window, requests, request);
    hide Admitted, On, Recent;
  }

  ghost predicate InOrder(requests: seq<Request>) {
    forall i, j | 0 <= i < j < |requests| :: requests[i].at <= requests[j].at
  }

  lemma {:induction false} AdmittedBefore(limit: int, window: real, requests: seq<Request>, now: real, k: nat)
    ensures (forall i | 0 <= i < |requests| :: requests[i].at <= now) && k < |Admitted(limit, window, requests)| ==>
              Admitted(limit, window, requests)[k].at <= now
    decreases |requests|
  {
    hide Judge;
    if requests == [] {
    } else if forall i | 0 <= i < |requests| :: requests[i].at <= now {
      assert requests[|requests| - 1].at <= now;
      AdmittedBefore(limit, window, requests[..|requests| - 1], now, k);
    }
  }

  lemma {:induction false} LaterIsWithin(admitted: seq<Request>, bucket: string, from: real, now: real)
    ensures (forall k | 0 <= k < |admitted| :: admitted[k].at <= now) ==>
              Within(On(admitted, bucket), from, now) == Later(admitted, bucket, from)
  {
    if admitted == [] {
      WithinNothing(from, now);
    } else if forall k | 0 <= k < |admitted| :: admitted[k].at <= now {
      var front, last := admitted[..|admitted| - 1], admitted[|admitted| - 1];
      LaterIsWithin(front, bucket, from, now);
      assert last.at <= now;
      if last.bucket == bucket {
        WithinSnoc(On(front, bucket), last.at, from, now);
      } else {
        assert On(admitted, bucket) == On(front, bucket);
      }
    }
  }

  /** With times in order, a refusal means that exactly `limit` admissions of the bucket lie in (t - window, t]: no request
      is refused needlessly. */
  lemma RefusalIsNeeded(limit: int, window: real, requests: seq<Request>, request: Request)
    ensures InOrder(requests + [request]) && limit > 0
            && !Judge(limit, window, Admitted(limit, window, requests), request).allowed ==>
              Within(On(Admitted(limit, window, requests), request.bucket), request.at - window, request.at) == limit
  {
    if InOrder(requests + [request]) && limit > 0 {
      var admitted := Admitted(limit, window, requests);
      forall i | 0 <= i < |requests| ensures requests[i].at <= request.at {
        assert (requests + [request])[i] == requests[i] && (requests + [request])[|requests|] == request;
      }
      forall k | 0 <= k < |admitted| ensures admitted[k].at <= request.at {
        AdmittedBefore(limit, window, requests, request.at, k);
      }
      LaterIsWithin(admitted, request.bucket, request.at - window, request.at);
      AdmittedIffRoom(limit, window, requests, request);
      NoIntervalOverflows(limit, window, requests, request.bucket, request.at);
      hide Admitted, On, Within;
    }
  }
}
