/**
 Which endings count for and against a circuit, over whole runs of its callers.
 */
module BreakerCounts {
  import opened Wrappers
  import opened Resilience

  /** The ending of a call that speaks against the provider: a timeout, or an error marked so. */
  predicate Against(ending: Ending) {
    ending.TimedOut? || (ending.Failed? && ending.error.circuitFailure)
  }

  /** The step ends an attempt in flight. */
  predicate Lands(w: World, step: Step) {
    step.End? && w.inFlight > 0
  }

  /** A success: a return, or an error not held against the provider that answers a probe. */
  predicate Clears(w: World, step: Step) {
    Lands(w, step) && (step.ending.Returned? || (step.ending.Failed? && !step.ending.error.circuitFailure && w.breaker.state == HalfOpen))
  }

  /** The endings against the provider since the last success, counted over the steps. */
  function Tally(threshold: int, reset: real, clock: real, steps: seq<Step>): nat {
    if steps == [] then 0
    else
      var front, last := steps[..|steps| - 1], steps[|steps| - 1];
      var w := Run(Start(clock), threshold, reset, front);
      if Clears(w, last) then 0
      else Tally(threshold, reset, clock, front) + (if Lands(w, last) && Against(last.ending) then 1 else 0)
  }

  /** In every run and every state, the failure count is that tally. */
  lemma {:induction false} FailuresAreTallied(threshold: int, reset: real, clock: real, steps: seq<Step>)
    ensures Run(Start(clock), threshold, reset, steps).breaker.failures == Tally(threshold, reset, clock, steps)
    decreases |steps|
  {
    if steps == [] {
    } else {
      var front, last := steps[..|steps| - 1], steps[|steps| - 1];
      assert steps == front + [last];
      FailuresAreTallied(threshold, reset, clock, front);
      RunSnoc(Start(clock), threshold, reset, front, last);
      hide Run;
    }
  }

  /** So the circuit is closed exactly while fewer than `threshold` endings spoke against the provider. */
  lemma ClosedIffFewAgainst(threshold: int, reset: real, clock: real, steps: seq<Step>)
    ensures threshold >= 1 && Ticking(clock, steps) ==>
              (Run(Start(clock), threshold, reset, steps).breaker.state == Closed <==> Tally(threshold, reset, clock, steps) < threshold)
  {
    if threshold >= 1 && Ticking(clock, steps) {
      RunIsSound(Start(clock), threshold, reset, steps);
      FailuresAreTallied(threshold, reset, clock, steps);
    }
  }

  ghost predicate OnlyReturns(steps: seq<Step>) {
    forall i | 0 <= i < |steps| :: steps[i].End? ==> steps[i].ending.Returned?
  }

  /** When every attempt returns, the circuit never leaves closed, counts nothing and admits every call. */
  lemma {:induction false} ReturnsKeepClosed(threshold: int, reset: real, clock: real, steps: seq<Step>, now: real)
    ensures OnlyReturns(steps) ==>
              var b := Run(Start(clock), threshold, reset, steps).breaker;
              b.state == Closed && b.failures == 0 && Admit(b, reset, now).Admitted?
    decreases |steps|
  {
    if steps == [] {
    } else if OnlyReturns(steps) {
      var front, last := steps[..|steps| - 1], steps[|steps| - 1];
      assert steps == front + [last];
      ReturnsKeepClosed(threshold, reset, clock, front, now);
      RunSnoc(Start(clock), threshold, reset, front, last);
      assert steps[|front|] == last;
      hide Run;
      ReturnsKeepClosed(threshold, reset, clock, front, last.at);
    }
  }

  ghost predicate AllAgainst(steps: seq<Step>) {
    forall i | 0 <= i < |steps| :: steps[i].End? && Against(steps[i].ending)
  }

  /** Enough endings against the provider, one after the other, open the circuit and leave it open. */
  lemma {:induction false} ThresholdOpens(w: World, threshold: int, reset: real, steps: seq<Step>)
    ensures AllAgainst(steps) && |steps| <= w.inFlight && w.breaker.state != HalfOpen
            && (w.breaker.state == Open || (|steps| > 0 && w.breaker.failures + |steps| >= threshold)) ==>
              Run(w, threshold, reset, steps).breaker.state == Open
    decreases |steps|
  {
    if steps == [] {
    } else if AllAgainst(steps) && |steps| <= w.inFlight {
      var next := Next(w, threshold, reset, steps[0]);
      assert Against(steps[0].ending);
      assert next.breaker.failures == w.breaker.failures + 1 && next.inFlight == w.inFlight - 1;
      ThresholdOpens(next, threshold, reset, steps[1..]);
    }
  }

  /** A success need not be a return: an error not held against the provider, answering a probe, clears the count. */
  lemma LenientProbeClears(error: ProviderError)
    ensures !error.circuitFailure ==>
              var steps := [Call(0.0), End(TimedOut, 0.0), Call(0.0)];
              && Run(Start(0.0), 1, 0.0, steps).breaker == Breaker(1, HalfOpen, 0.0, true)
              && Run(Start(0.0), 1, 0.0, steps + [End(Failed(error), 0.0)]).breaker == Breaker(0, Closed, 0.0, false)
  {
    var s1, s2, s3 := Call(0.0), End(TimedOut, 0.0), Call(0.0);
    RunSnoc(Start(0.0), 1, 0.0, [], s1);
    RunSnoc(Start(0.0), 1, 0.0, [s1], s2);
    RunSnoc(Start(0.0), 1, 0.0, [s1, s2], s3);
    RunSnoc(Start(0.0), 1, 0.0, [s1, s2, s3], End(Failed(error), 0.0));
    assert [] + [s1] == [s1] && [s1] + [s2] == [s1, s2] && [s1, s2] + [s3] == [s1, s2, s3];
  }
}
