/**
 What the batch service accepts and refuses, and that its answers fit the requests they answer.
 */
module BatchRules {
  import opened Wrappers
  import opened Batches

  // ---------- One transaction

  /** A record is stored exactly when its batch is new or the record takes the stored one forward; the refusal names the
      first thing that would go back. */
  lemma StoredIffForward(batches: map<BatchId, Record>, record: Record)
    ensures UpsertError(batches, record).None? <==> record.batch !in batches || Advances(batches[record.batch], record)
    ensures record.batch in batches ==>
              var previous := batches[record.batch];
              && (UpsertError(batches, record) == Some(Stale) <==> record.updatedAt < previous.updatedAt)
              && (UpsertError(batches, record) == Some(LeftTerminal)
                  <==> record.updatedAt >= previous.updatedAt && Final(previous.status) && record.status != previous.status)
  {
  }

  /** The statuses that no batch leaves. */
  predicate Final(status: Status) {
    status in {Completed, Status.Failed, Expired, Cancelled}
  }

  /** The last of the records about a batch. */
  function LastOf(records: seq<Record>, b: BatchId): Option<Record> {
    if records == [] then None
    else
      var last := records[|records| - 1];
      if last.batch == b then Some(last) else LastOf(records[..|records| - 1], b)
  }

  /** A list of records that is accepted leaves each of its batches with its last record, and no other batch changed. */
  lemma {:induction false} LastRecordIsStored(batches: map<BatchId, Record>, records: seq<Record>, b: BatchId)
    ensures match UpsertAll(batches, records)
            case Err(_) => true
            case Ok(after) =>
              match LastOf(records, b)
              case Some(record) => b in after && after[b] == record
              case None => (b in after <==> b in batches) && (b in after ==> after[b] == batches[b])
    decreases |records|
  {
    hide UpsertError;
    if records == [] {
    } else {
      LastRecordIsStored(batches, records[..|records| - 1], b);
    }
  }

  /** What a key holds decides a reservation: nothing, another request (completed or not), the same one unfinished, or the
      same one with its response. */
  lemma KeyDecidesReservation(db: Database, key: Key, request: Request)
    ensures AcceptableKey(key.text) ==>
              && (key !in db.entries ==> Reserve(db, key, request) == Proceed && Reserved(db, key, request).entries == db.entries[key := Entry(request, None)])
              && (key in db.entries && db.entries[key].request != request ==>
                    Reserve(db, key, request) == Rejected(KeyConflict) && Reserved(db, key, request) == db)
              && (key in db.entries && db.entries[key] == Entry(request, None) ==>
                    Reserve(db, key, request) == Proceed && Reserved(db, key, request) == db)
              && forall record | key in db.entries && db.entries[key] == Entry(request, Some(record)) ::
                    Reserve(db, key, request) == Cached(record) && Reserved(db, key, request) == db
    ensures !AcceptableKey(key.text) ==> Reserve(db, key, request) == Rejected(BadKey) && Reserved(db, key, request) == db
    ensures key.text == "" || |key.text| > 128 ==> Reserve(db, key, request) == Rejected(BadKey)
  {
  }

  // ---------- Whole runs

  /** A batch stored with a final status keeps it in every run. */
  lemma FinalStatusStays(w: World, steps: seq<Step>, b: BatchId)
    ensures WorldOk(w) && b in w.db.batches && Final(w.db.batches[b].status) ==>
              var after := Run(w, steps).db.batches; b in after && after[b].status == w.db.batches[b].status
  {
    if WorldOk(w) {
      RunIsSound(w, steps);
      hide Run, WorldOk;
    }
  }

  /** The record is about the caller's request: the same provider and account, and the file and endpoint submitted or the
      batch to cancel. */
  predicate Suits(key: Key, request: Request, record: Record) {
    && record.batch.provider == key.provider && record.batch.account == key.account
    && match request
       case Submission(input, endpoint) => record.input == input && record.endpoint == endpoint
       case Cancellation(id) => record.batch.id == id
  }

  /** Every response suits its request, and every caller's record suits the caller. */
  ghost predicate Suited(w: World) {
    && (forall b | b in w.db.batches :: w.db.batches[b].batch == b)
    && (forall k | k in w.db.entries && w.db.entries[k].response.Some? ::
          Suits(k, w.db.entries[k].request, w.db.entries[k].response.value))
    && forall i | 0 <= i < |w.callers| :: CallerSuited(w.callers[i])
  }

  ghost predicate CallerSuited(caller: Caller) {
    match caller.stage
    case Looked(Some(record)) => Suits(caller.key, caller.request, record)
    case Answered(record) => Suits(caller.key, caller.request, record)
    case Finished(Ok(record)) => Suits(caller.key, caller.request, record)
    case _ => true
  }

  lemma ResponsesStaySuited(w: World, step: Step, k: Key)
    requires Suited(w) && WorldOk(w)
    ensures var after := Next(w, step).db.entries;
            k in after && after[k].response.Some? ==> Suits(k, after[k].request, after[k].response.value)
  {
    hide UpsertError, UpsertAll, Sound;
    if !step.Sync? && step.caller < |w.callers| {
      assert CallerSuited(w.callers[step.caller]) && CallerOk(w.db, w.callers[step.caller]);
    }
  }

  lemma CallersStaySuited(w: World, step: Step, i: nat)
    requires Suited(w) && i < |w.callers|
    ensures |Next(w, step).callers| == |w.callers| && CallerSuited(Next(w, step).callers[i])
  {
    hide UpsertError, UpsertAll;
    assert CallerSuited(w.callers[i]);
  }

  lemma StepStaysSuited(w: World, step: Step)
    requires Suited(w) && WorldOk(w)
    ensures Suited(Next(w, step))
  {
    var after := Next(w, step);
    DatabaseStep(w, step);
    assert forall b | b in after.db.batches :: after.db.batches[b].batch == b;
    forall k | k in after.db.entries && after.db.entries[k].response.Some?
      ensures Suits(k, after.db.entries[k].request, after.db.entries[k].response.value)
    {
      ResponsesStaySuited(w, step, k);
    }
    CallerCount(w, step);
    forall i | 0 <= i < |after.callers| ensures CallerSuited(after.callers[i]) {
      CallersStaySuited(w, step, i);
    }
    hide Next, WorldOk, CallerSuited, Suits;
  }

  lemma CallerCount(w: World, step: Step)
    ensures |Next(w, step).callers| == |w.callers|
  {
    hide UpsertError, UpsertAll;
  }

  /** In every run, whoever finishes well has a record about its own request, and so has every completed key. */
  lemma {:induction false} AnswersSuitRequests(w: World, steps: seq<Step>)
    ensures WorldOk(w) && Suited(w) ==> Suited(Run(w, steps))
    decreases |steps|
  {
    hide WorldOk, Suited, Next;
    if steps == [] {
    } else if WorldOk(w) && Suited(w) {
      StepKeepsWorldOk(w, steps[0]);
      StepStaysSuited(w, steps[0]);
      AnswersSuitRequests(Next(w, steps[0]), steps[1..]);
    }
  }

  /** Not reserved yet, or refused, with a key that another request holds. */
  ghost predicate Conflicting(w: World, i: nat) {
    && i < |w.callers| && i !in w.provided
    && w.callers[i].key in w.db.entries && w.db.entries[w.callers[i].key].request != w.callers[i].request
    && match w.callers[i].stage
       case Arrived => true
       case Looked(_) => true
       case Finished(Err(_)) => true
       case _ => false
  }

  lemma StepKeepsConflicting(w: World, i: nat, step: Step)
    requires WorldOk(w) && Conflicting(w, i)
    ensures Conflicting(Next(w, step), i)
  {
    var key := w.callers[i].key;
    DatabaseStep(w, step);
    assert EntryKept(w.db.entries[key], Next(w, step).db.entries, key);
    hide WorldOk, Extends, Sound, UpsertError, UpsertAll;
  }

  /** A key is for one request: in no run does a caller with another one finish well or reach the provider, whether the
      key is completed or not. */
  lemma {:induction false} ConflictingCallerIsRefused(w: World, i: nat, steps: seq<Step>)
    ensures WorldOk(w) && Conflicting(w, i) ==> Conflicting(Run(w, steps), i)
    decreases |steps|
  {
    hide WorldOk, Next, Conflicting;
    if steps == [] {
    } else if WorldOk(w) && Conflicting(w, i) {
      StepKeepsWorldOk(w, steps[0]);
      StepKeepsConflicting(w, i, steps[0]);
      ConflictingCallerIsRefused(Next(w, steps[0]), i, steps[1..]);
    }
  }

  // ---------- One step of a caller

  /** A submission needs its file, and a cancellation its batch, as stored at that moment. */
  lemma LookingUpDecides(w: World, i: nat, fileExists: bool)
    ensures i < |w.callers| && w.callers[i].stage.Arrived? ==>
              var caller, after := w.callers[i], Next(w, Look(i, fileExists));
              && after.db == w.db && after.provided == w.provided
              && match caller.request
                 case Submission(_, _) => after.callers[i].stage == if fileExists then Looked(None) else Finished(Err(NotFound))
                 case Cancellation(id) =>
                   var b := BatchId(caller.key.provider, caller.key.account, id);
                   if b in w.db.batches then after.callers[i].stage == Looked(Some(w.db.batches[b]))
                   else after.callers[i].stage == Finished(Err(NotFound))
  {
  }

  /** After a fresh or an unfinished reservation, a caller that saw its batch in a final status has that record for its
      answer and never asks the provider; any other one waits for the provider. */
  lemma FinishedBatchIsNotCancelled(w: World, i: nat)
    ensures i < |w.callers| && w.callers[i].stage.Looked? ==>
              var caller, after := w.callers[i], Next(w, TryReserve(i));
              && after.provided == w.provided
              && match Reserve(w.db, caller.key, caller.request)
                 case Rejected(e) => after.callers[i].stage == Finished(Err(e))
                 case Cached(record) => after.callers[i].stage == Finished(Ok(record))
                 case Proceed =>
                   if caller.stage.previous.Some? && Final(caller.stage.previous.value.status)
                   then after.callers[i].stage == Answered(caller.stage.previous.value)
                   else after.callers[i].stage == Waiting
  {
    hide Reserve, Reserved;
  }

  /** A provider's record is taken exactly when it suits the request; a failed call or any other record is an error. */
  lemma ReplyMustSuit(w: World, i: nat, reply: Option<Record>)
    ensures i < |w.callers| && w.callers[i].stage.Waiting? ==>
              var caller, after := w.callers[i], Next(w, Provide(i, reply));
              && after.provided == w.provided + {i} && after.db == w.db
              && after.callers[i].stage
                 == match reply
                    case None => Finished(Err(ProviderFailed))
                    case Some(record) => if Suits(caller.key, caller.request, record) then Answered(record) else Finished(Err(WrongRecord))
  {
  }

  /** A completion that is refused is the caller's error, and leaves the database as it was; else the caller has its record. */
  lemma CompletionIsAnswered(w: World, i: nat)
    ensures WorldOk(w) && i < |w.callers| && w.callers[i].stage.Answered? ==>
              var caller, after := w.callers[i], Next(w, TryComplete(i));
              var record, stored := caller.stage.record, w.db.entries[caller.key].response;
              && (stored.Some? ==> after.db == w.db && after.callers[i].stage == Finished(Ok(record)))
              && (stored.None? && UpsertError(w.db.batches, record).Some? ==>
                    after.db == w.db && after.callers[i].stage == Finished(Err(UpsertError(w.db.batches, record).value)))
              && (stored.None? && UpsertError(w.db.batches, record).None? ==>
                    && after.db.entries == w.db.entries[caller.key := Entry(caller.request, Some(record))]
                    && after.db.batches == w.db.batches[record.batch := record]
                    && after.db.audit == w.db.audit + [KeyCompleted(caller.key, record.batch)]
                    && after.callers[i].stage == Finished(Ok(record)))
  {
    if i < |w.callers| && WorldOk(w) {
      assert CallerOk(w.db, w.callers[i]);
    }
    hide UpsertError, Sound;
  }

  /** A refresh records its event with the batches it stores, or nothing. */
  lemma RefreshIsRecorded(db: Database, records: seq<Record>, event: Event)
    ensures match UpsertAll(db.batches, records)
            case Err(_) => Synced(db, records, event) == db
            case Ok(after) => Synced(db, records, event) == Database(db.entries, after, db.audit + [event])
  {
    hide UpsertAll;
  }

  /** A key starts with a letter or a digit and holds no space or line break. */
  lemma KeysArePlain(text: string, i: nat)
    ensures AcceptableKey(text) && i < |text| ==>
              text[i] !in " \n\r\t/" && text[0] !in "_.:-" && (text[i] in "_.:-" || '0' <= text[i] <= 'z')
  {
  }
}
