/**
 How a retried call ends, and how long it waits between attempts.
 */
module RetryVerdicts {
  import opened Wrappers
  import opened Resilience

  /** Attempt `i` is made, fails in a way worth repeating, and there are attempts and time left for its delay. */
  predicate GoesOn(policy: Policy, startedAt: real, turns: seq<Turn>, i: nat)
    requires i < |turns|
  {
    var turn := turns[i];
    && turn.at < startedAt + policy.totalTimeout && turn.admitted
    && turn.ending.Failed? && turn.ending.error.retryable && i + 1 < policy.maxAttempts
    && turn.endedAt + Delay(policy, turn.ending.error, i, turn.fraction) < startedAt + policy.totalTimeout
  }

  /** The call makes its attempts up to `n` and no other. */
  ghost predicate StopsAt(policy: Policy, startedAt: real, turns: seq<Turn>, n: nat)
    requires n < |turns|
  {
    !GoesOn(policy, startedAt, turns, n) && forall i | 0 <= i < n :: GoesOn(policy, startedAt, turns, i)
  }

  lemma {:induction false} VerdictFrom(policy: Policy, startedAt: real, turns: seq<Turn>, k: nat, n: nat)
    requires k <= n < policy.maxAttempts <= |turns| && !GoesOn(policy, startedAt, turns, n)
    requires forall i | k <= i < n :: GoesOn(policy, startedAt, turns, i)
    ensures Execute(policy, startedAt, turns, k).verdict == Execute(policy, startedAt, turns, n).verdict
    ensures Starts(Execute(policy, startedAt, turns, k).actions) == n - k + Starts(Execute(policy, startedAt, turns, n).actions)
    decreases n - k
  {
    hide Delay;
    if k == n {
    } else {
      VerdictFrom(policy, startedAt, turns, k + 1, n);
      assert GoesOn(policy, startedAt, turns, k);
      var turn := turns[k];
      var done := [Started(turn.at, Remaining(policy, startedAt, turn.at))] + ReportActions(turn);
      var slept := [Slept(turn.endedAt, Delay(policy, turn.ending.error, k, turn.fraction))];
      var later := Execute(policy, startedAt, turns, k + 1).actions;
      StartsOfOne(turn, Remaining(policy, startedAt, turn.at));
      StartsAppend(done, slept);
      StartsAppend(done + slept, later);
      assert slept[1..] == [];
    }
  }

  lemma StartsOfOne(turn: Turn, timeout: real)
    ensures Starts([Started(turn.at, timeout)] + ReportActions(turn)) == 1
  {
    TurnActions(turn);
    assert ([Started(turn.at, timeout)] + ReportActions(turn))[1..] == ReportActions(turn);
  }

  /** The verdict of a call is that of the first attempt that does not go on, and it has made the attempts before. */
  lemma VerdictOfTheLast(policy: Policy, startedAt: real, turns: seq<Turn>, n: nat)
    requires n < policy.maxAttempts <= |turns| && StopsAt(policy, startedAt, turns, n)
    ensures var trace, turn, deadline := Execute(policy, startedAt, turns, 0), turns[n], startedAt + policy.totalTimeout;
            var made := turn.at < deadline && turn.admitted;
            && Starts(trace.actions) == n + (if made then 1 else 0)
            && (turn.at >= deadline ==> trace.verdict == DeadlineExceeded)
            && (turn.at < deadline && !turn.admitted ==> trace.verdict == Rejected)
            && (made && turn.ending.Returned? ==> trace.verdict == Value)
            && (made && turn.ending.TimedOut? ==> trace.verdict == OperationTimedOut)
            && (made && turn.ending.Abandoned? ==> trace.verdict == Cancelled)
            && (made && turn.ending.Failed? ==>
                  trace.verdict == if turn.ending.error.retryable && n + 1 < policy.maxAttempts then DeadlineExceeded
                                   else Raised(turn.ending.error))
  {
    hide Delay;
    VerdictFrom(policy, startedAt, turns, 0, n);
    StartsOfOne(turns[n], Remaining(policy, startedAt, turns[n].at));
  }

  /** Some attempt is the last, so the cases above are all there are. */
  lemma {:induction false} SomeAttemptIsTheLast(policy: Policy, startedAt: real, turns: seq<Turn>) returns (n: nat)
    requires 1 <= policy.maxAttempts <= |turns|
    ensures n < policy.maxAttempts && StopsAt(policy, startedAt, turns, n)
  {
    n := 0;
    while GoesOn(policy, startedAt, turns, n)
      invariant n < policy.maxAttempts && forall i | 0 <= i < n :: GoesOn(policy, startedAt, turns, i)
      decreases policy.maxAttempts - n
    {
      n := n + 1;
    }
  }

  /** A provider's wish is kept as far as the policy allows; otherwise the ceiling doubles up to the cap. */
  lemma DelaysDouble(policy: Policy, error: ProviderError, attempt: nat, fraction: real)
    ensures Sensible(policy) && error.retryAfter.Some? ==>
              var wish, delay := error.retryAfter.value, Delay(policy, error, attempt, fraction);
              && (0.0 <= wish <= policy.maxRetryAfter ==> delay == wish)
              && (wish < 0.0 ==> delay == 0.0)
              && (wish > policy.maxRetryAfter ==> delay == policy.maxRetryAfter)
    ensures error.retryAfter.None? ==>
              && Delay(policy, error, attempt, fraction) == fraction * Delay(policy, error, attempt, 1.0)
              && (Sensible(policy) ==>
                    && Delay(policy, error, 0, 1.0) == MinReal(policy.maxDelay, policy.baseDelay)
                    && Delay(policy, error, attempt + 1, 1.0) == MinReal(policy.maxDelay, 2.0 * Delay(policy, error, attempt, 1.0)))
  {
    Pow2Positive(attempt);
    var grown := policy.baseDelay * Pow2(attempt);
    assert policy.baseDelay * Pow2(attempt + 1) == 2.0 * grown;
  }
}
