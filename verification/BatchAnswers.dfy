/**
 What callers sharing an idempotency key are answered: the stored response, unless two of them are past their
 reservations at once and bring different records.
 */
module BatchAnswers {
  import opened Wrappers
  import opened Batches

  function Stored(db: Database, key: Key): Option<Record> {
    if key in db.entries then db.entries[key].response else None
  }

  predicate Answers(caller: Caller, record: Record) {
    caller.stage == Finished(Ok(record))
  }

  predicate IsAnswered(caller: Caller) {
    caller.stage.Finished? && caller.stage.result.Ok?
  }

  /** A caller that finished well has the stored response of its key. */
  predicate Faithful(w: World, i: nat)
    requires i < |w.callers|
  {
    IsAnswered(w.callers[i]) ==> Stored(w.db, w.callers[i].key) == Some(w.callers[i].stage.result.value)
  }

  ghost predicate AllFaithful(w: World) {
    forall i | 0 <= i < |w.callers| :: Faithful(w, i)
  }

  /** A well finished caller's key is completed, and a completed key has a caller that got its response. */
  ghost predicate Accounted(w: World) {
    && (forall i | 0 <= i < |w.callers| :: IsAnswered(w.callers[i]) ==> Stored(w.db, w.callers[i].key).Some?)
    && forall k | Stored(w.db, k).Some? :: Claimed(w, k)
  }

  ghost predicate Claimed(w: World, k: Key) {
    exists j | 0 <= j < |w.callers| :: w.callers[j].key == k && Some(w.callers[j].stage) == Settlement(w.db, k)
  }

  function Settlement(db: Database, k: Key): Option<Stage> {
    match Stored(db, k) case Some(record) => Some(Finished(Ok(record))) case None => None
  }

  /** The step completes a key that has a response already, with another record. */
  predicate Differs(w: World, step: Step) {
    && step.TryComplete? && step.caller < |w.callers| && w.callers[step.caller].stage.Answered?
    && Stored(w.db, w.callers[step.caller].key).Some?
    && Stored(w.db, w.callers[step.caller].key) != Some(w.callers[step.caller].stage.record)
  }

  predicate EverDiffers(w: World, steps: seq<Step>)
    decreases |steps|
  {
    steps != [] && (Differs(w, steps[0]) || EverDiffers(Next(w, steps[0]), steps[1..]))
  }

  // ---------- One step

  lemma StoredStays(before: Database, after: Database, key: Key)
    requires Extends(before, after) && Stored(before, key).Some?
    ensures Stored(after, key) == Stored(before, key)
  {
    assert EntryKept(before.entries[key], after.entries, key);
  }

  /** Only a completion stores responses, and only under its own key. */
  lemma StoredBy(w: World, step: Step, key: Key)
    requires WorldOk(w) && Stored(w.db, key).None? && Stored(Next(w, step).db, key).Some?
    ensures step.TryComplete? && step.caller < |w.callers| && w.callers[step.caller].key == key
    ensures Next(w, step).callers[step.caller] == w.callers[step.caller].(stage := Finished(Ok(Stored(Next(w, step).db, key).value)))
  {
    if !step.Sync? && step.caller < |w.callers| {
      assert CallerOk(w.db, w.callers[step.caller]);
    }
    hide Sound, UpsertError, UpsertAll;
  }

  /** The others stay as they are, and a finished caller stays finished. */
  lemma OthersStay(w: World, step: Step, i: nat)
    requires i < |w.callers|
    ensures |Next(w, step).callers| == |w.callers| && Next(w, step).callers[i].key == w.callers[i].key
    ensures step.Sync? || step.caller != i || w.callers[i].stage.Finished? ==> Next(w, step).callers[i] == w.callers[i]
  {
    hide UpsertError, UpsertAll;
  }

  /** A caller that finishes well in this step has the response that is stored after it, unless the step differs. */
  lemma FinishingIsFaithful(w: World, step: Step)
    requires WorldOk(w) && !step.Sync? && step.caller < |w.callers| && !IsAnswered(w.callers[step.caller])
    ensures var i, after := step.caller, Next(w, step);
            && (IsAnswered(after.callers[i]) ==> Stored(after.db, w.callers[i].key).Some?)
            && (Faithful(after, i) <==> !Differs(w, step))
  {
    assert CallerOk(w.db, w.callers[step.caller]);
    hide Sound, UpsertAll;
  }

  lemma StepFaithful(w: World, step: Step)
    requires WorldOk(w) && Accounted(w)
    ensures AllFaithful(Next(w, step)) <==> AllFaithful(w) && !Differs(w, step)
  {
    var after := Next(w, step);
    DatabaseStep(w, step);
    CallersStay(w, step);
    hide WorldOk, Next, Extends;
    forall i | 0 <= i < |w.callers|
      ensures Faithful(after, i) <==> Faithful(w, i) && !(Differs(w, step) && step.caller == i)
    {
      OthersStay(w, step, i);
      if IsAnswered(w.callers[i]) {
        StoredStays(w.db, after.db, w.callers[i].key);
      } else if !step.Sync? && step.caller == i {
        FinishingIsFaithful(w, step);
      }
    }
    hide Faithful;
    if Differs(w, step) {
      assert !Faithful(after, step.caller);
    } else if AllFaithful(after) {
      forall i | 0 <= i < |w.callers| ensures Faithful(w, i) {
        assert Faithful(after, i);
      }
    }
  }

  lemma CallersStay(w: World, step: Step)
    ensures |Next(w, step).callers| == |w.callers|
  {
    hide UpsertError, UpsertAll;
  }

  lemma StepAccounted(w: World, step: Step)
    requires WorldOk(w) && Accounted(w)
    ensures Accounted(Next(w, step))
  {
    var after := Next(w, step);
    DatabaseStep(w, step);
    CallersStay(w, step);
    hide WorldOk, Next, Extends;
    forall i | 0 <= i < |w.callers| && IsAnswered(after.callers[i]) ensures Stored(after.db, after.callers[i].key).Some? {
      OthersStay(w, step, i);
      if IsAnswered(w.callers[i]) {
        StoredStays(w.db, after.db, w.callers[i].key);
      } else {
        FinishingIsFaithful(w, step);
      }
    }
    forall k | Stored(after.db, k).Some? ensures Claimed(after, k) {
      if Stored(w.db, k).Some? {
        StoredStays(w.db, after.db, k);
        assert Claimed(w, k);
        var j :| 0 <= j < |w.callers| && w.callers[j].key == k && Some(w.callers[j].stage) == Settlement(w.db, k);
        OthersStay(w, step, j);
        assert after.callers[j].key == k;
      } else {
        StoredBy(w, step, k);
        assert after.callers[step.caller].key == k;
      }
    }
  }

  // ---------- Whole runs

  lemma {:induction false} RunFaithful(w: World, steps: seq<Step>)
    requires WorldOk(w) && Accounted(w)
    ensures Accounted(Run(w, steps))
    ensures AllFaithful(Run(w, steps)) <==> AllFaithful(w) && !EverDiffers(w, steps)
    decreases |steps|
  {
    hide WorldOk, Accounted, AllFaithful, Next, Differs;
    if steps == [] {
    } else {
      StepKeepsWorldOk(w, steps[0]);
      StepAccounted(w, steps[0]);
      StepFaithful(w, steps[0]);
      RunFaithful(Next(w, steps[0]), steps[1..]);
    }
  }

  /** No two well finished callers of one key have different records. */
  ghost predicate Agree(w: World) {
    forall i, j | 0 <= i < |w.callers| && 0 <= j < |w.callers| && w.callers[i].key == w.callers[j].key ::
      IsAnswered(w.callers[i]) && IsAnswered(w.callers[j]) ==> w.callers[i].stage == w.callers[j].stage
  }

  lemma AgreeIffFaithful(w: World)
    requires Accounted(w)
    ensures Agree(w) <==> AllFaithful(w)
  {
    if Agree(w) {
      forall i | 0 <= i < |w.callers| ensures Faithful(w, i) {
        if IsAnswered(w.callers[i]) {
          var k := w.callers[i].key;
          assert Claimed(w, k);
          var j :| 0 <= j < |w.callers| && w.callers[j].key == k && Some(w.callers[j].stage) == Settlement(w.db, k);
          assert IsAnswered(w.callers[j]);
        }
      }
    }
    if AllFaithful(w) {
      forall i, j | 0 <= i < |w.callers| && 0 <= j < |w.callers| && w.callers[i].key == w.callers[j].key
        ensures IsAnswered(w.callers[i]) && IsAnswered(w.callers[j]) ==> w.callers[i].stage == w.callers[j].stage
      {
        assert Faithful(w, i) && Faithful(w, j);
      }
    }
  }

  /** Callers that have just arrived at a service with no reservations. */
  ghost predicate Opening(w: World) {
    WorldOk(w) && w.db.entries == map[] && forall i | 0 <= i < |w.callers| :: w.callers[i].stage.Arrived?
  }

  /**
   In every run, the callers of each key that finish well are answered with one and the same record exactly
   when no caller completes a key that holds another record by then.
   */
  lemma AnswersAgreeIff(w: World, steps: seq<Step>)
    requires Opening(w)
    ensures Agree(Run(w, steps)) <==> !EverDiffers(w, steps)
  {
    assert Accounted(w) && AllFaithful(w);
    RunFaithful(w, steps);
    AgreeIffFaithful(Run(w, steps));
  }

  /** Not reserved yet when the key is completed: refused, or answered with the stored response. */
  ghost predicate Late(w: World, i: nat, response: Record) {
    && i < |w.callers| && Stored(w.db, w.callers[i].key) == Some(response)
    && (w.callers[i].stage.Arrived? || w.callers[i].stage.Looked?
        || (w.callers[i].stage.Finished? && (w.callers[i].stage.result.Ok? ==> w.callers[i].stage.result.value == response)))
  }

  lemma StepKeepsLate(w: World, i: nat, response: Record, step: Step)
    requires WorldOk(w) && Late(w, i, response)
    ensures Late(Next(w, step), i, response)
  {
    DatabaseStep(w, step);
    StoredStays(w.db, Next(w, step).db, w.callers[i].key);
    hide WorldOk, Extends, Sound, UpsertError, UpsertAll;
  }

  /** Whoever reserves after completion is answered, if well, with the stored response, in every run. */
  lemma {:induction false} LateCallerGetsTheResponse(w: World, i: nat, response: Record, steps: seq<Step>)
    requires WorldOk(w) && Late(w, i, response)
    ensures var after := Run(w, steps);
            && i < |after.callers| && Stored(after.db, after.callers[i].key) == Some(response)
            && (IsAnswered(after.callers[i]) ==> Answers(after.callers[i], response))
    decreases |steps|
  {
    hide WorldOk, Next;
    if steps == [] {
    } else {
      StepKeepsWorldOk(w, steps[0]);
      StepKeepsLate(w, i, response, steps[0]);
      LateCallerGetsTheResponse(Next(w, steps[0]), i, response, steps[1..]);
    }
  }

  // ---------- Two callers, two answers

  function TwoCallers(key: Key, request: Request, a: Stage, b: Stage, response: Option<Record>): World {
    World(if response.Some? then
            Database(map[key := Entry(request, response)], map[response.value.batch := response.value],
                     [KeyCompleted(key, response.value.batch)])
          else Database(map[key := Entry(request, None)], map[], []),
          [Caller(key, request, a), Caller(key, request, b)], {0, 1})
  }

  function Newcomers(key: Key, request: Request): World {
    World(Database(map[], map[], []), [Caller(key, request, Arrived), Caller(key, request, Arrived)], {})
  }

  const BOTH_RESERVE := [Look(0, true), Look(1, true), TryReserve(0), TryReserve(1)]

  lemma {:induction false} RunAppend(w: World, a: seq<Step>, b: seq<Step>)
    ensures Run(w, a + b) == Run(Run(w, a), b)
    decreases |a|
  {
    hide Next;
    if a == [] {
      assert a + b == b;
    } else {
      assert (a + b)[1..] == a[1..] + b;
      RunAppend(Next(w, a[0]), a[1..], b);
    }
  }

  lemma RunTwo(w: World, a: Step, b: Step)
    ensures Run(w, [a, b]) == Next(Next(w, a), b)
  {
    hide Next;
    assert [a, b][1..] == [b] && [b][1..] == [];
    assert Run(Next(w, a), [b]) == Run(Next(Next(w, a), b), [b][1..]);
  }

  lemma BothAnswered(key: Key, request: Request, first: Record, second: Record)
    requires request.Submission? && AcceptableKey(key.text)
    requires Accepts(Caller(key, request, Waiting), first) && Accepts(Caller(key, request, Waiting), second)
    ensures Run(Newcomers(key, request), BOTH_RESERVE + [Provide(0, Some(first)), Provide(1, Some(second))])
         == TwoCallers(key, request, Answered(first), Answered(second), None)
  {
    var w := Newcomers(key, request);
    var looked := w.(callers := [Caller(key, request, Looked(None)), Caller(key, request, Looked(None))]);
    var waiting := TwoCallers(key, request, Waiting, Waiting, None).(provided := {});
    RunTwo(w, Look(0, true), Look(1, true));
    assert Next(Next(w, Look(0, true)), Look(1, true)) == looked;
    RunTwo(looked, TryReserve(0), TryReserve(1));
    assert Next(Next(looked, TryReserve(0)), TryReserve(1)) == waiting;
    RunTwo(waiting, Provide(0, Some(first)), Provide(1, Some(second)));
    RunAppend(w, [Look(0, true), Look(1, true)], [TryReserve(0), TryReserve(1)]);
    assert BOTH_RESERVE == [Look(0, true), Look(1, true)] + [TryReserve(0), TryReserve(1)];
    RunAppend(w, BOTH_RESERVE, [Provide(0, Some(first)), Provide(1, Some(second))]);
  }

  /** Two submitters that both reserve before either completes are answered with what the provider gave each. */
  lemma TwoAnswers(key: Key, request: Request, first: Record, second: Record)
    requires request.Submission? && AcceptableKey(key.text)
    requires Accepts(Caller(key, request, Waiting), first) && Accepts(Caller(key, request, Waiting), second)
    ensures var steps := BOTH_RESERVE + [Provide(0, Some(first)), Provide(1, Some(second))] + [TryComplete(0), TryComplete(1)];
            var after := Run(Newcomers(key, request), steps);
            && Opening(Newcomers(key, request))
            && |after.callers| == 2 && Answers(after.callers[0], first) && Answers(after.callers[1], second)
            && Stored(after.db, key) == Some(first)
  {
    var answered := TwoCallers(key, request, Answered(first), Answered(second), None);
    BothAnswered(key, request, first, second);
    RunAppend(Newcomers(key, request), BOTH_RESERVE + [Provide(0, Some(first)), Provide(1, Some(second))],
              [TryComplete(0), TryComplete(1)]);
    RunTwo(answered, TryComplete(0), TryComplete(1));
    assert Next(answered, TryComplete(0)) == TwoCallers(key, request, Finished(Ok(first)), Answered(second), Some(first)) by {
      assert map[][first.batch := first] == map[first.batch := first];
    }
  }
}
