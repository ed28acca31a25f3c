/**
 The circuit breaker shared by concurrent callers, and the retry executor with its
 deadline. Clock readings and random fractions are inputs.
 */
module Resilience {
  import opened Wrappers

  datatype CircuitState = Closed | Open | HalfOpen

  datatype Breaker = Breaker(failures: nat, state: CircuitState, openedAt: real, probe: bool)

  /** What `before_call` answers; the last two are its three rejections. */
  datatype Admission = Admitted | ProbeBusy | StillOpen | ProbeBusyWhileOpen

  /** How an attempt ends. An abandoned attempt is cancelled and reports nothing. */
  datatype Ending = Returned | Failed(error: ProviderError) | TimedOut | Abandoned

  datatype ProviderError = ProviderError(retryable: bool, circuitFailure: bool, retryAfter: Option<real>)

  const CLOSED := Breaker(0, Closed, 0.0, false)

  function Admit(b: Breaker, reset: real, now: real): Admission {
    if b.state == HalfOpen && b.probe then ProbeBusy
    else if b.state != Open then Admitted
    else if now - b.openedAt < reset then StillOpen
    else if b.probe then ProbeBusyWhileOpen
    else Admitted
  }

  function Enter(b: Breaker, reset: real, now: real): Breaker {
    if Admit(b, reset, now).Admitted? && b.state == Open then b.(state := HalfOpen, probe := true) else b
  }

  function Succeed(b: Breaker): Breaker {
    b.(failures := 0, probe := false, state := Closed)
  }

  function Fail(b: Breaker, threshold: int, now: real): Breaker {
    var counted := b.(failures := b.failures + 1, probe := false);
    if b.state == HalfOpen || counted.failures >= threshold then counted.(state := Open, openedAt := now) else counted
  }

  datatype Report = Success | Failure

  /** What the executor tells the breaker when an attempt ends. */
  function Reports(ending: Ending, halfOpen: bool): Option<Report> {
    match ending
    case Returned => Some(Success)
    case TimedOut => Some(Failure)
    case Failed(error) => if error.circuitFailure then Some(Failure) else if halfOpen then Some(Success) else None
    case Abandoned => None
  }

  function Settle(b: Breaker, threshold: int, ending: Ending, now: real): Breaker {
    match Reports(ending, b.state == HalfOpen)
    case Some(Success) => Succeed(b)
    case Some(Failure) => Fail(b, threshold, now)
    case None => b
  }

  // ---------- Callers sharing a breaker

  /** A call arrives, or one admitted attempt ends. */
  datatype Step = Call(at: real) | End(ending: Ending, at: real)

  /** `probes` are the admission times while the circuit was not closed; `silent` holds
      from such an admission until the next attempt ends without being abandoned. */
  datatype World = World(breaker: Breaker, inFlight: nat, probes: seq<real>, silent: bool, clock: real)

  function Next(w: World, threshold: int, reset: real, step: Step): World {
    match step
    case Call(at) =>
      if Admit(w.breaker, reset, at).Admitted? then
        var probing := w.breaker.state != Closed;
        World(Enter(w.breaker, reset, at), w.inFlight + 1, if probing then w.probes + [at] else w.probes,
              w.silent || probing, at)
      else w.(clock := at)
    case End(ending, at) =>
      if w.inFlight == 0 then w.(clock := at)
      else World(Settle(w.breaker, threshold, ending, at), w.inFlight - 1, w.probes, w.silent && ending.Abandoned?, at)
  }

  function Run(w: World, threshold: int, reset: real, steps: seq<Step>): World
    decreases |steps|
  {
    if steps == [] then w else Run(Next(w, threshold, reset, steps[0]), threshold, reset, steps[1..])
  }

  function Start(clock: real): World {
    World(CLOSED, 0, [], false, clock)
  }

  ghost predicate Ticking(clock: real, steps: seq<Step>)
    decreases |steps|
  {
    steps != [] ==> clock <= steps[0].at && Ticking(steps[0].at, steps[1..])
  }

  ghost predicate Spaced(probes: seq<real>, reset: real) {
    forall i | 0 < i < |probes| :: probes[i] - probes[i - 1] >= reset
  }

  ghost predicate Sound(w: World, threshold: int, reset: real) {
    && (w.breaker.state == Closed <==> w.breaker.failures < threshold)
    && (w.breaker.state == HalfOpen <==> w.breaker.probe)
    && (w.breaker.state == HalfOpen <==> w.silent)
    && Spaced(w.probes, reset)
    && (w.probes != [] ==> w.probes[|w.probes| - 1] <= w.clock)
    && (w.breaker.state == Open && w.probes != [] ==> w.probes[|w.probes| - 1] <= w.breaker.openedAt)
  }

  lemma StepIsSound(w: World, threshold: int, reset: real, step: Step)
    requires threshold >= 1 && Sound(w, threshold, reset) && w.clock <= step.at
    ensures Sound(Next(w, threshold, reset, step), threshold, reset)
  {
  }

  /** In every run: closed iff failures are below the threshold, half-open iff a probe is in
      flight iff no attempt has reported since it started, and probes are at least
      `reset` apart. */
  lemma {:induction false} RunIsSound(w: World, threshold: int, reset: real, steps: seq<Step>)
    requires threshold >= 1 && Sound(w, threshold, reset) && Ticking(w.clock, steps)
    ensures Sound(Run(w, threshold, reset, steps), threshold, reset)
    decreases |steps|
  {
    if steps == [] {
    } else {
      StepIsSound(w, threshold, reset, steps[0]);
      RunIsSound(Next(w, threshold, reset, steps[0]), threshold, reset, steps[1..]);
    }
  }

  /** The second probe guard of `before_call` is unreachable. */
  lemma OpenGuardIsUnreachable(threshold: int, reset: real, clock: real, steps: seq<Step>, now: real)
    requires threshold >= 1 && Ticking(clock, steps)
    ensures var b := Run(Start(clock), threshold, reset, steps).breaker;
            && !Admit(b, reset, now).ProbeBusyWhileOpen?
            && (Admit(b, reset, now).Admitted? <==> b.state == Closed || (b.state == Open && now - b.openedAt >= reset))
  {
    RunIsSound(Start(clock), threshold, reset, steps);
  }

  ghost predicate NothingAbandoned(steps: seq<Step>) {
    forall i | 0 <= i < |steps| :: steps[i].End? ==> !steps[i].ending.Abandoned?
  }

  lemma {:induction false} ProbeIsInFlight(w: World, threshold: int, reset: real, steps: seq<Step>)
    requires threshold >= 1 && Sound(w, threshold, reset) && Ticking(w.clock, steps) && NothingAbandoned(steps)
    requires w.breaker.state == HalfOpen ==> w.inFlight > 0
    ensures var after := Run(w, threshold, reset, steps); after.breaker.state == HalfOpen ==> after.inFlight > 0
    decreases |steps|
  {
    if steps == [] {
    } else {
      StepIsSound(w, threshold, reset, steps[0]);
      ProbeIsInFlight(Next(w, threshold, reset, steps[0]), threshold, reset, steps[1..]);
    }
  }

  /** When every attempt returns, raises a provider error or times out, a quiescent breaker is not half-open. */
  lemma QuiescentIsNotHalfOpen(threshold: int, reset: real, clock: real, steps: seq<Step>)
    requires threshold >= 1 && Ticking(clock, steps) && NothingAbandoned(steps)
    requires Run(Start(clock), threshold, reset, steps).inFlight == 0
    ensures Run(Start(clock), threshold, reset, steps).breaker.state != HalfOpen
  {
    ProbeIsInFlight(Start(clock), threshold, reset, steps);
  }

  // ---------- When a probe is answered

  lemma {:induction false} RunSnoc(w: World, threshold: int, reset: real, steps: seq<Step>, last: Step)
    ensures Run(w, threshold, reset, steps + [last]) == Next(Run(w, threshold, reset, steps), threshold, reset, last)
    decreases |steps|
  {
    hide Next;
    if steps == [] {
      assert ([] + [last])[1..] == [];
    } else {
      assert (steps + [last])[1..] == steps[1..] + [last];
      RunSnoc(Next(w, threshold, reset, steps[0]), threshold, reset, steps[1..], last);
    }
  }

  ghost function Before(threshold: int, reset: real, clock: real, steps: seq<Step>, i: nat): World
    requires i <= |steps|
  {
    Run(Start(clock), threshold, reset, steps[..i])
  }

  /** Step `i` admits a call while the circuit is not closed. */
  ghost predicate ProbesAt(threshold: int, reset: real, clock: real, steps: seq<Step>, i: nat)
    requires i < |steps|
  {
    var b := Before(threshold, reset, clock, steps, i).breaker;
    steps[i].Call? && b.state != Closed && Admit(b, reset, steps[i].at).Admitted?
  }

  /** Step `i` ends an attempt in flight, and not by abandoning it. */
  ghost predicate AnswersAt(threshold: int, reset: real, clock: real, steps: seq<Step>, i: nat)
    requires i < |steps|
  {
    steps[i].End? && !steps[i].ending.Abandoned? && Before(threshold, reset, clock, steps, i).inFlight > 0
  }

  /** Some probe was admitted after which no attempt was answered. */
  ghost predicate Unanswered(threshold: int, reset: real, clock: real, steps: seq<Step>) {
    exists i | 0 <= i < |steps| ::
      ProbesAt(threshold, reset, clock, steps, i)
      && forall j | i < j < |steps| :: !AnswersAt(threshold, reset, clock, steps, j)
  }

  lemma UnansweredSnoc(threshold: int, reset: real, clock: real, front: seq<Step>, last: Step)
    ensures var n, steps := |front|, front + [last];
            Unanswered(threshold, reset, clock, steps)
            <==> ProbesAt(threshold, reset, clock, steps, n)
                 || (Unanswered(threshold, reset, clock, front) && !AnswersAt(threshold, reset, clock, steps, n))
  {
    var n, steps := |front|, front + [last];
    forall i | 0 <= i < n
      ensures ProbesAt(threshold, reset, clock, steps, i) == ProbesAt(threshold, reset, clock, front, i)
      ensures AnswersAt(threshold, reset, clock, steps, i) == AnswersAt(threshold, reset, clock, front, i)
    {
      assert steps[..i] == front[..i];
    }
    hide ProbesAt, AnswersAt;
    if Unanswered(threshold, reset, clock, front) && !AnswersAt(threshold, reset, clock, steps, n) {
      var i :| 0 <= i < n && ProbesAt(threshold, reset, clock, front, i)
               && forall j | i < j < n :: !AnswersAt(threshold, reset, clock, front, j);
      assert ProbesAt(threshold, reset, clock, steps, i);
    }
  }

  lemma {:induction false} SilentIffUnanswered(threshold: int, reset: real, clock: real, steps: seq<Step>)
    ensures Run(Start(clock), threshold, reset, steps).silent <==> Unanswered(threshold, reset, clock, steps)
    decreases |steps|
  {
    if steps == [] {
    } else {
      var front, last := steps[..|steps| - 1], steps[|steps| - 1];
      assert steps == front + [last] && steps[..|front|] == front;
      SilentIffUnanswered(threshold, reset, clock, front);
      UnansweredSnoc(threshold, reset, clock, front, last);
      RunSnoc(Start(clock), threshold, reset, front, last);
      hide Unanswered, Run;
    }
  }

  /** In every run, quiescent or not, the breaker is half-open exactly when some probe was admitted after which no
      attempt was answered. */
  lemma HalfOpenIffUnanswered(threshold: int, reset: real, clock: real, steps: seq<Step>)
    requires threshold >= 1 && Ticking(clock, steps)
    ensures Run(Start(clock), threshold, reset, steps).breaker.state == HalfOpen <==> Unanswered(threshold, reset, clock, steps)
  {
    RunIsSound(Start(clock), threshold, reset, steps);
    SilentIffUnanswered(threshold, reset, clock, steps);
  }

  function Endings(steps: seq<Step>): nat {
    if steps == [] then 0 else (if steps[0].End? then 1 else 0) + Endings(steps[1..])
  }

  /** One of the attempts in flight ends with an answer. */
  ghost predicate SomeAnswer(inFlight: nat, steps: seq<Step>) {
    exists i | 0 <= i < |steps| :: Endings(steps[..i]) < inFlight && steps[i].End? && !steps[i].ending.Abandoned?
  }

  lemma SomeAnswerStep(inFlight: nat, steps: seq<Step>)
    requires steps != []
    ensures steps[0].Call? || inFlight == 0 ==> (SomeAnswer(inFlight, steps) <==> SomeAnswer(inFlight, steps[1..]))
    ensures steps[0].End? && inFlight > 0 ==>
              (SomeAnswer(inFlight, steps) <==> !steps[0].ending.Abandoned? || SomeAnswer(inFlight - 1, steps[1..]))
  {
    var one, rest := if steps[0].End? then 1 else 0, steps[1..];
    forall i | 0 <= i < |rest| ensures Endings(steps[..i + 1]) == one + Endings(rest[..i]) && steps[i + 1] == rest[i] {
      assert steps[..i + 1][0] == steps[0] && steps[..i + 1][1..] == rest[..i];
    }
    assert steps[..0] == [] && Endings(steps[..0]) == 0;
    if inFlight > 0 && steps[0].End? && !steps[0].ending.Abandoned? {
      assert SomeAnswer(inFlight, steps);
    }
    if SomeAnswer(inFlight, steps) {
      var i :| 0 <= i < |steps| && Endings(steps[..i]) < inFlight && steps[i].End? && !steps[i].ending.Abandoned?;
      if i > 0 {
        assert Endings(steps[..(i - 1) + 1]) == one + Endings(rest[..i - 1]) && rest[i - 1] == steps[i];
      }
    }
    forall i | 0 <= i < |rest| && rest[i].End? && !rest[i].ending.Abandoned? && one + Endings(rest[..i]) < inFlight
      ensures SomeAnswer(inFlight, steps)
    {
      assert Endings(steps[..i + 1]) < inFlight && steps[i + 1] == rest[i];
    }
  }

  /** The breaker never changes, and admits nothing, throughout the run. */
  ghost predicate Blocked(w: World, threshold: int, reset: real, steps: seq<Step>) {
    forall k | 0 <= k <= |steps| ::
      var after := Run(w, threshold, reset, steps[..k]); after.breaker == w.breaker && after.probes == w.probes
  }

  lemma BlockedStep(w: World, threshold: int, reset: real, steps: seq<Step>)
    requires steps != []
    ensures var next := Next(w, threshold, reset, steps[0]);
            Blocked(w, threshold, reset, steps)
            <==> next.breaker == w.breaker && next.probes == w.probes && Blocked(next, threshold, reset, steps[1..])
  {
    hide Next;
    var next, rest := Next(w, threshold, reset, steps[0]), steps[1..];
    assert steps[..0] == [] && rest[..0] == [];
    forall k | 0 <= k <= |rest| ensures Run(w, threshold, reset, steps[..k + 1]) == Run(next, threshold, reset, rest[..k]) {
      assert steps[..k + 1][0] == steps[0] && steps[..k + 1][1..] == rest[..k];
    }
    if Blocked(w, threshold, reset, steps) {
      assert Run(w, threshold, reset, steps[..0 + 1]) == Run(next, threshold, reset, rest[..0]);
      forall k | 0 <= k <= |rest|
        ensures Run(next, threshold, reset, rest[..k]).breaker == w.breaker && Run(next, threshold, reset, rest[..k]).probes == w.probes
      {
        assert Run(w, threshold, reset, steps[..k + 1]) == Run(next, threshold, reset, rest[..k]);
      }
    }
    if next.breaker == w.breaker && next.probes == w.probes && Blocked(next, threshold, reset, rest) {
      forall k | 0 <= k <= |steps|
        ensures Run(w, threshold, reset, steps[..k]).breaker == w.breaker && Run(w, threshold, reset, steps[..k]).probes == w.probes
      {
        if k > 0 {
          assert Run(w, threshold, reset, steps[..(k - 1) + 1]) == Run(next, threshold, reset, rest[..k - 1]);
        }
      }
    }
  }

  /** From half-open, a run leaves the breaker blocked exactly when no attempt in flight ends with an answer. */
  lemma {:induction false} BlockedIffNoAnswer(w: World, threshold: int, reset: real, steps: seq<Step>)
    requires w.breaker.state == HalfOpen && w.breaker.probe
    ensures Blocked(w, threshold, reset, steps) <==> !SomeAnswer(w.inFlight, steps)
    decreases |steps|
  {
    if steps == [] {
    } else {
      BlockedStep(w, threshold, reset, steps);
      SomeAnswerStep(w.inFlight, steps);
      var next := Next(w, threshold, reset, steps[0]);
      hide Blocked, SomeAnswer, Run;
      if next.breaker == w.breaker {
        BlockedIffNoAnswer(next, threshold, reset, steps[1..]);
      }
    }
  }

  /** In particular, when nothing is in flight no later call is ever admitted again. */
  lemma {:induction false} AbandonedProbeBlocksForever(w: World, threshold: int, reset: real, steps: seq<Step>)
    requires w.breaker.state == HalfOpen && w.breaker.probe && w.inFlight == 0
    ensures Blocked(w, threshold, reset, steps)
    ensures var after := Run(w, threshold, reset, steps);
            after.breaker == w.breaker && after.inFlight == 0 && after.probes == w.probes
    decreases |steps|
  {
    BlockedIffNoAnswer(w, threshold, reset, steps);
    if steps == [] {
    } else {
      AbandonedProbeBlocksForever(w.(clock := steps[0].at), threshold, reset, steps[1..]);
    }
  }

  /** One failure, a wait and an abandoned probe reach that state. */
  lemma AbandonedProbeIsReachable(reset: real)
    requires reset >= 0.0
    ensures var error := ProviderError(false, true, None);
            var steps := [Call(0.0), End(Failed(error), 0.0), Call(reset), End(Abandoned, reset)];
            var after := Run(Start(0.0), 1, reset, steps);
            Ticking(0.0, steps) && after.breaker.state == HalfOpen && after.inFlight == 0
  {
    var error := ProviderError(false, true, None);
    var s1, s2, s3, s4 := Call(0.0), End(Failed(error), 0.0), Call(reset), End(Abandoned, reset);
    assert [s1, s2, s3, s4][1..] == [s2, s3, s4];
    assert [s2, s3, s4][1..] == [s3, s4];
    assert [s3, s4][1..] == [s4];
    assert [s4][1..] == [];
    assert Ticking(reset, [s4]) && Ticking(0.0, [s3, s4]) && Ticking(0.0, [s2, s3, s4]);
    var w1 := Next(Start(0.0), 1, reset, s1);
    var w2 := Next(w1, 1, reset, s2);
    var w3 := Next(w2, 1, reset, s3);
    assert Run(w3, 1, reset, [s4]) == Next(w3, 1, reset, s4);
    assert Run(w2, 1, reset, [s3, s4]) == Run(w3, 1, reset, [s4]);
  }

  class CircuitBreaker {
    const threshold: int
    const reset: real
    var failures: nat
    var state: CircuitState
    var openedAt: real
    var probe: bool

    ghost function Value(): Breaker
      reads this
    {
      Breaker(failures, state, openedAt, probe)
    }

    constructor (threshold: int, reset: real)
      ensures Value() == CLOSED && this.threshold == threshold && this.reset == reset
    {
      this.threshold, this.reset := threshold, reset;
      failures, state, openedAt, probe := 0, Closed, 0.0, false;
    }

    method BeforeCall(now: real) returns (admission: Admission)
      modifies this
      ensures admission == Admit(old(Value()), reset, now)
      ensures Value() == Enter(old(Value()), reset, now)
    {
      if state == HalfOpen && probe {
        return ProbeBusy;
      }
      if state != Open {
        return Admitted;
      }
      if now - openedAt < reset {
        return StillOpen;
      }
      if probe {
        return ProbeBusyWhileOpen;
      }
      state, probe := HalfOpen, true;
      return Admitted;
    }

    method ReportSuccess()
      modifies this
      ensures Value() == Succeed(old(Value()))
    {
      failures, probe, state := 0, false, Closed;
    }

    method ReportFailure(now: real)
      modifies this
      ensures Value() == Fail(old(Value()), threshold, now)
    {
      failures, probe := failures + 1, false;
      if state == HalfOpen || failures >= threshold {
        state, openedAt := Open, now;
      }
    }

    /** The executor's end of one attempt, as the other callers see it. */
    method EndAttempt(ending: Ending, now: real)
      modifies this
      ensures Value() == Settle(old(Value()), threshold, ending, now)
    {
      match ending {
        case Returned => ReportSuccess();
        case TimedOut => ReportFailure(now);
        case Failed(error) =>
          if error.circuitFailure {
            ReportFailure(now);
          } else if state == HalfOpen {
            ReportSuccess();
          }
        case Abandoned =>
      }
    }
  }

  // ---------- The retry executor

  datatype Policy = Policy(maxAttempts: nat, baseDelay: real, maxDelay: real, maxRetryAfter: real, totalTimeout: real)

  /** One turn of the loop: the clock before it, the breaker's answer, how the operation
      ends, the clock and breaker then, and the random fraction of the backoff. */
  datatype Turn = Turn(at: real, admitted: bool, ending: Ending, endedAt: real, halfOpen: bool, fraction: real)

  datatype Action = Started(at: real, timeout: real) | Reported(report: Report) | Slept(at: real, delay: real)

  datatype Verdict = Value | DeadlineExceeded | Rejected | Raised(error: ProviderError) | OperationTimedOut | Cancelled | RanOut

  datatype Trace = Trace(actions: seq<Action>, verdict: Verdict)

  function Pow2(n: nat): real {
    if n == 0 then 1.0 else 2.0 * Pow2(n - 1)
  }

  function MinReal(a: real, b: real): real {
    if a <= b then a else b
  }

  function MaxReal(a: real, b: real): real {
    if a >= b then a else b
  }

  function Delay(policy: Policy, error: ProviderError, attempt: nat, fraction: real): real {
    match error.retryAfter
    case Some(wait) => MinReal(MaxReal(0.0, wait), policy.maxRetryAfter)
    case None => fraction * MinReal(policy.maxDelay, policy.baseDelay * Pow2(attempt))
  }

  function Remaining(policy: Policy, startedAt: real, now: real): real {
    policy.totalTimeout - (now - startedAt)
  }

  function ReportActions(turn: Turn): seq<Action> {
    match Reports(turn.ending, turn.halfOpen)
    case Some(report) => [Reported(report)]
    case None => []
  }

  function Execute(policy: Policy, startedAt: real, turns: seq<Turn>, attempt: nat): Trace
    requires attempt <= policy.maxAttempts <= |turns|
    decreases policy.maxAttempts - attempt
  {
    if attempt == policy.maxAttempts then Trace([], RanOut)
    else
      var turn := turns[attempt];
      var remaining := Remaining(policy, startedAt, turn.at);
      if remaining <= 0.0 then Trace([], DeadlineExceeded)
      else if !turn.admitted then Trace([], Rejected)
      else
        var done := [Started(turn.at, remaining)] + ReportActions(turn);
        match turn.ending
        case Returned => Trace(done, Value)
        case TimedOut => Trace(done, OperationTimedOut)
        case Abandoned => Trace(done, Cancelled)
        case Failed(error) =>
          var delay := Delay(policy, error, attempt, turn.fraction);
          if !error.retryable || attempt + 1 >= policy.maxAttempts then Trace(done, Raised(error))
          else if delay >= Remaining(policy, startedAt, turn.endedAt) then Trace(done, DeadlineExceeded)
          else
            var later := Execute(policy, startedAt, turns, attempt + 1);
            Trace(done + [Slept(turn.endedAt, delay)] + later.actions, later.verdict)
  }

  ghost predicate Sensible(policy: Policy) {
    policy.baseDelay >= 0.0 && policy.maxDelay >= 0.0 && policy.maxRetryAfter >= 0.0
  }

  ghost predicate Fractions(turns: seq<Turn>) {
    forall i | 0 <= i < |turns| :: 0.0 <= turns[i].fraction <= 1.0
  }

  ghost predicate Within(policy: Policy, startedAt: real, action: Action) {
    var deadline := startedAt + policy.totalTimeout;
    match action
    case Started(at, timeout) => at < deadline && timeout > 0.0 && at + timeout == deadline
    case Slept(at, delay) => 0.0 <= delay <= MaxReal(policy.maxDelay, policy.maxRetryAfter) && at + delay < deadline
    case Reported(_) => true
  }

  function Starts(actions: seq<Action>): nat {
    if actions == [] then 0 else (if actions[0].Started? then 1 else 0) + Starts(actions[1..])
  }

  lemma {:induction false} StartsAppend(a: seq<Action>, b: seq<Action>)
    ensures Starts(a + b) == Starts(a) + Starts(b)
  {
    if a == [] {
      assert a + b == b;
    } else {
      assert (a + b)[1..] == a[1..] + b;
      StartsAppend(a[1..], b);
    }
  }

  /** A fraction of something under the cap stays under the cap. */
  lemma Fraction(fraction: real, ceiling: real, cap: real)
    requires 0.0 <= fraction <= 1.0 && 0.0 <= ceiling <= cap
    ensures 0.0 <= fraction * ceiling <= cap
  {
    assert fraction * ceiling <= 1.0 * ceiling;
  }

  lemma {:induction false} Pow2Positive(n: nat)
    ensures Pow2(n) >= 1.0
  {
    if n > 0 {
      Pow2Positive(n - 1);
    }
  }

  lemma DelayIsBounded(policy: Policy, error: ProviderError, attempt: nat, fraction: real)
    requires Sensible(policy) && 0.0 <= fraction <= 1.0
    ensures 0.0 <= Delay(policy, error, attempt, fraction) <= MaxReal(policy.maxDelay, policy.maxRetryAfter)
  {
    Pow2Positive(attempt);
    hide Pow2;
    var grown := policy.baseDelay * Pow2(attempt);
    assert grown >= 0.0;
    Fraction(fraction, MinReal(policy.maxDelay, grown), policy.maxDelay);
  }

  lemma TurnActions(turn: Turn)
    ensures Starts(ReportActions(turn)) == 0 && Starts([Started(turn.at, turn.at)] + ReportActions(turn)) == 1
  {
  }

  /** Every call: at most `maxAttempts` operations, none started at or after the deadline,
      every timeout ending at it, no sleep past it, and bounded delays. */
  lemma {:induction false} ExecutionIsBounded(policy: Policy, startedAt: real, turns: seq<Turn>, attempt: nat)
    requires Sensible(policy) && Fractions(turns) && attempt <= policy.maxAttempts <= |turns|
    ensures var trace := Execute(policy, startedAt, turns, attempt);
            && Starts(trace.actions) <= policy.maxAttempts - attempt
            && (forall i | 0 <= i < |trace.actions| :: Within(policy, startedAt, trace.actions[i]))
            && (trace.verdict.RanOut? <==> attempt == policy.maxAttempts)
    decreases policy.maxAttempts - attempt
  {
    if attempt < policy.maxAttempts {
      var turn := turns[attempt];
      var remaining := Remaining(policy, startedAt, turn.at);
      var done := [Started(turn.at, remaining)] + ReportActions(turn);
      assert Starts(done) == 1 by {
        assert done[1..] == ReportActions(turn);
        TurnActions(turn);
      }
      if turn.ending.Failed? {
        var slept := [Slept(turn.endedAt, Delay(policy, turn.ending.error, attempt, turn.fraction))];
        DelayIsBounded(policy, turn.ending.error, attempt, turn.fraction);
        ExecutionIsBounded(policy, startedAt, turns, attempt + 1);
        var later := Execute(policy, startedAt, turns, attempt + 1).actions;
        StartsAppend(done, slept);
        StartsAppend(done + slept, later);
        assert slept[1..] == [];
      }
    }
  }

  /** The retry loop. */
  method CallWithRetry(policy: Policy, startedAt: real, turns: seq<Turn>) returns (actions: seq<Action>, verdict: Verdict)
    requires policy.maxAttempts <= |turns|
    ensures Trace(actions, verdict) == Execute(policy, startedAt, turns, 0)
  {
    actions := [];
    for attempt := 0 to policy.maxAttempts
      invariant var later := Execute(policy, startedAt, turns, attempt);
                Execute(policy, startedAt, turns, 0) == Trace(actions + later.actions, later.verdict)
    {
      var turn := turns[attempt];
      var remaining := policy.totalTimeout - (turn.at - startedAt);
      if remaining <= 0.0 {
        return actions, DeadlineExceeded;
      }
      if !turn.admitted {
        return actions, Rejected;
      }
      ghost var before, later := actions, Execute(policy, startedAt, turns, attempt);
      actions := actions + ([Started(turn.at, remaining)] + ReportActions(turn));
      match turn.ending {
        case Returned => return actions, Value;
        case TimedOut => return actions, OperationTimedOut;
        case Abandoned => return actions, Cancelled;
        case Failed(error) =>
          if !error.retryable || attempt + 1 >= policy.maxAttempts {
            return actions, Raised(error);
          }
          var delay := Delay(policy, error, attempt, turn.fraction);
          if delay >= policy.totalTimeout - (turn.endedAt - startedAt) {
            return actions, DeadlineExceeded;
          }
          ghost var rest := Execute(policy, startedAt, turns, attempt + 1).actions;
          Assoc(actions, [Slept(turn.endedAt, delay)], rest);
          Assoc(before, [Started(turn.at, remaining)] + ReportActions(turn), [Slept(turn.endedAt, delay)]);
          Assoc(before, [Started(turn.at, remaining)] + ReportActions(turn) + [Slept(turn.endedAt, delay)], rest);
          actions := actions + [Slept(turn.endedAt, delay)];
      }
    }
    return actions, RanOut;
  }
}
