/**
 Message batches with durable idempotency: submitters, cancellers and refreshers share a
 database, every table access is one transaction, and a caller may stop between any two.
 A request digest is represented by the request it digests.
 */
module Batches {
  import opened Wrappers

  datatype Status = Validating | InProgress | Finalizing | Completed | Failed | Expired | Cancelling | Cancelled

  datatype BatchId = BatchId(provider: string, account: string, id: string)

  datatype Record = Record(batch: BatchId, input: string, endpoint: string, status: Status,
                           completed: nat, failed: nat, updatedAt: int)

  datatype Request = Submission(input: string, endpoint: string) | Cancellation(id: string)

  datatype Key = Key(create: bool, provider: string, account: string, text: string)

  /** A reservation; it is completed once it has a response. */
  datatype Entry = Entry(request: Request, response: Option<Record>)

  datatype Event = KeyCompleted(key: Key, batch: BatchId) | Refreshed(batch: BatchId) | Reconciled(count: nat)

  datatype Database = Database(entries: map<Key, Entry>, batches: map<BatchId, Record>, audit: seq<Event>)

  datatype BatchError = BadKey | KeyConflict | Stale | LeftTerminal | CountsRegressed | ProviderFailed | WrongRecord | NotFound

  predicate Terminal(status: Status) {
    status.Completed? || status.Failed? || status.Expired? || status.Cancelled?
  }

  predicate AcceptableKey(text: string) {
    && 1 <= |text| <= 128 && IsAlphanumeric(text[0])
    && forall i | 0 <= i < |text| :: IsAlphanumeric(text[i]) || text[i] in "_.:-"
  }

  predicate IsAlphanumeric(c: char) {
    'A' <= c <= 'Z' || 'a' <= c <= 'z' || '0' <= c <= '9'
  }

  // ---------- The transactions

  datatype Reservation = Proceed | Cached(record: Record) | Rejected(error: BatchError)

  function Reserve(db: Database, key: Key, request: Request): Reservation {
    if !AcceptableKey(key.text) then Rejected(BadKey)
    else if key !in db.entries then Proceed
    else if db.entries[key].request != request then Rejected(KeyConflict)
    else match db.entries[key].response
      case Some(record) => Cached(record)
      case None => Proceed
  }

  function Reserved(db: Database, key: Key, request: Request): Database {
    if AcceptableKey(key.text) && key !in db.entries then db.(entries := db.entries[key := Entry(request, None)]) else db
  }

  function UpsertError(batches: map<BatchId, Record>, record: Record): Option<BatchError> {
    if record.batch !in batches then None
    else
      var previous := batches[record.batch];
      if record.updatedAt < previous.updatedAt then Some(Stale)
      else if Terminal(previous.status) && record.status != previous.status then Some(LeftTerminal)
      else if record.completed < previous.completed || record.failed < previous.failed then Some(CountsRegressed)
      else None
  }

  /** All records, or the first error. */
  function UpsertAll(batches: map<BatchId, Record>, records: seq<Record>): Result<map<BatchId, Record>, BatchError> {
    if records == [] then Ok(batches)
    else match UpsertAll(batches, records[..|records| - 1])
      case Err(e) => Err(e)
      case Ok(sofar) =>
        var last := records[|records| - 1];
        match UpsertError(sofar, last)
        case Some(e) => Err(e)
        case None => Ok(sofar[last.batch := last])
  }

  function KeyOf(create: bool, text: string, record: Record): Key {
    Key(create, record.batch.provider, record.batch.account, text)
  }

  function CompleteError(db: Database, key: Key, request: Request, record: Record): Option<BatchError> {
    if key !in db.entries || db.entries[key].request != request then Some(KeyConflict)
    else if db.entries[key].response.Some? then None
    else UpsertError(db.batches, record)
  }

  function Complete(db: Database, key: Key, request: Request, record: Record): Database {
    if CompleteError(db, key, request, record).Some? || db.entries[key].response.Some? then db
    else
      Database(db.entries[key := Entry(request, Some(record))], db.batches[record.batch := record],
               db.audit + [KeyCompleted(key, record.batch)])
  }

  function Synced(db: Database, records: seq<Record>, event: Event): Database {
    match UpsertAll(db.batches, records)
    case Err(_) => db
    case Ok(batches) => db.(batches := batches, audit := db.audit + [event])
  }

  // ---------- What no transaction undoes

  /** The later record of a batch keeps a terminal status and never goes back in time or counts. */
  ghost predicate Advances(earlier: Record, later: Record) {
    && earlier.updatedAt <= later.updatedAt
    && earlier.completed <= later.completed && earlier.failed <= later.failed
    && (Terminal(earlier.status) ==> later.status == earlier.status)
  }

  ghost predicate BatchesAdvance(before: map<BatchId, Record>, after: map<BatchId, Record>) {
    forall b | b in before :: b in after && Advances(before[b], after[b])
  }

  /** Requests and responses once recorded stay; the audit trail only grows. */
  ghost predicate Extends(before: Database, after: Database) {
    && (forall k | k in before.entries :: EntryKept(before.entries[k], after.entries, k))
    && BatchesAdvance(before.batches, after.batches)
    && before.audit <= after.audit
  }

  ghost predicate EntryKept(entry: Entry, entries: map<Key, Entry>, key: Key) {
    && key in entries && entries[key].request == entry.request
    && (entry.response.Some? ==> entries[key].response == entry.response)
  }

  function Completions(audit: seq<Event>, key: Key): nat {
    if audit == [] then 0
    else
      var last := audit[|audit| - 1];
      Completions(audit[..|audit| - 1], key) + (if last.KeyCompleted? && last.key == key then 1 else 0)
  }

  /** A key has one completion event exactly when it has a response, and the response's batch is stored. */
  ghost predicate KeySettled(db: Database, key: Key) {
    if key in db.entries && db.entries[key].response.Some? then
      var record := db.entries[key].response.value;
      Completions(db.audit, key) == 1 && record.batch in db.batches && Advances(record, db.batches[record.batch])
    else Completions(db.audit, key) == 0
  }

  ghost predicate Sound(db: Database) {
    && (forall k :: KeySettled(db, k))
    && forall b | b in db.batches :: db.batches[b].batch == b
  }

  lemma AdvancesTransitive(a: Record, b: Record, c: Record)
    requires Advances(a, b) && Advances(b, c)
    ensures Advances(a, c)
  {
  }

  lemma BatchesAdvanceTransitive(a: map<BatchId, Record>, b: map<BatchId, Record>, c: map<BatchId, Record>)
    requires BatchesAdvance(a, b) && BatchesAdvance(b, c)
    ensures BatchesAdvance(a, c)
  {
    forall k | k in a ensures k in c && Advances(a[k], c[k]) {
      AdvancesTransitive(a[k], b[k], c[k]);
    }
  }

  lemma {:induction false} UpsertAllAdvances(batches: map<BatchId, Record>, records: seq<Record>)
    requires forall b | b in batches :: batches[b].batch == b
    ensures match UpsertAll(batches, records)
            case Ok(after) => BatchesAdvance(batches, after) && forall b | b in after :: after[b].batch == b
            case Err(_) => true
  {
    if records == [] {
    } else {
      UpsertAllAdvances(batches, records[..|records| - 1]);
      match UpsertAll(batches, records[..|records| - 1]) {
        case Err(_) =>
        case Ok(sofar) =>
          var last := records[|records| - 1];
          if UpsertError(sofar, last).None? {
            assert BatchesAdvance(sofar, sofar[last.batch := last]);
            BatchesAdvanceTransitive(batches, sofar, sofar[last.batch := last]);
          }
      }
    }
  }

  lemma CompletionsSnoc(audit: seq<Event>, event: Event, key: Key)
    ensures Completions(audit + [event], key)
         == Completions(audit, key) + (if event.KeyCompleted? && event.key == key then 1 else 0)
  {
    assert (audit + [event])[..|audit|] == audit;
  }

  lemma SettledLater(before: Database, after: Database, key: Key)
    requires KeySettled(before, key) && BatchesAdvance(before.batches, after.batches)
    requires Completions(after.audit, key) == Completions(before.audit, key)
    requires (key in before.entries && before.entries[key].response.Some?)
        <==> (key in after.entries && after.entries[key].response.Some?)
    requires key in before.entries && before.entries[key].response.Some? ==>
               after.entries[key].response == before.entries[key].response
    ensures KeySettled(after, key)
  {
    if key in before.entries && before.entries[key].response.Some? {
      var record := before.entries[key].response.value;
      AdvancesTransitive(record, before.batches[record.batch], after.batches[record.batch]);
    }
  }

  lemma ReserveIsSound(db: Database, key: Key, request: Request)
    requires Sound(db)
    ensures Sound(Reserved(db, key, request)) && Extends(db, Reserved(db, key, request))
  {
    var after := Reserved(db, key, request);
    forall k ensures KeySettled(after, k) {
      assert KeySettled(db, k);
      SettledLater(db, after, k);
    }
  }

  lemma CompleteIsSound(db: Database, key: Key, request: Request, record: Record)
    requires Sound(db)
    ensures Sound(Complete(db, key, request, record)) && Extends(db, Complete(db, key, request, record))
  {
    var after := Complete(db, key, request, record);
    if after != db {
      assert BatchesAdvance(db.batches, after.batches);
      forall k ensures KeySettled(after, k) {
        assert KeySettled(db, k);
        CompletionsSnoc(db.audit, KeyCompleted(key, record.batch), k);
        if k != key {
          SettledLater(db, after, k);
        }
      }
    }
  }

  lemma SyncIsSound(db: Database, records: seq<Record>, event: Event)
    requires Sound(db) && !event.KeyCompleted?
    ensures Sound(Synced(db, records, event)) && Extends(db, Synced(db, records, event))
  {
    var after := Synced(db, records, event);
    UpsertAllAdvances(db.batches, records);
    if UpsertAll(db.batches, records).Ok? {
      forall k ensures KeySettled(after, k) {
        assert KeySettled(db, k);
        CompletionsSnoc(db.audit, event, k);
        SettledLater(db, after, k);
      }
    }
  }

  lemma ExtendsTransitive(a: Database, b: Database, c: Database)
    requires Extends(a, b) && Extends(b, c)
    ensures Extends(a, c)
  {
    BatchesAdvanceTransitive(a.batches, b.batches, c.batches);
    forall k | k in a.entries ensures EntryKept(a.entries[k], c.entries, k) {
      assert EntryKept(a.entries[k], b.entries, k);
      assert EntryKept(b.entries[k], c.entries, k);
    }
    assert a.audit <= c.audit by {
      assert a.audit == b.audit[..|a.audit|] && b.audit == c.audit[..|b.audit|];
    }
  }

  // ---------- Callers, interleaved

  /** Arrived; looked up what it needs; reserved and waiting for the provider; answered;
      finished. A caller that crashes never takes its next step. */
  datatype Stage = Arrived | Looked(previous: Option<Record>) | Waiting | Answered(record: Record)
                 | Finished(result: Result<Record, BatchError>)

  datatype Caller = Caller(key: Key, request: Request, stage: Stage)

  /** `provided` lists the callers that have reached the provider. */
  datatype World = World(db: Database, callers: seq<Caller>, provided: set<nat>)

  datatype Step =
    | Look(caller: nat, fileExists: bool)
    | TryReserve(caller: nat)
    | Provide(caller: nat, reply: Option<Record>)
    | TryComplete(caller: nat)
    | Sync(records: seq<Record>, event: Event)

  predicate Accepts(caller: Caller, record: Record) {
    && record.batch.provider == caller.key.provider && record.batch.account == caller.key.account
    && match caller.request
       case Submission(input, endpoint) => record.input == input && record.endpoint == endpoint
       case Cancellation(id) => record.batch.id == id
  }

  function LookUp(db: Database, caller: Caller, fileExists: bool): Stage {
    match caller.request
    case Submission(_, _) => if fileExists then Looked(None) else Finished(Err(NotFound))
    case Cancellation(id) =>
      var batch := BatchId(caller.key.provider, caller.key.account, id);
      if batch in db.batches then Looked(Some(db.batches[batch])) else Finished(Err(NotFound))
  }

  function AfterReserve(db: Database, caller: Caller): Stage
    requires caller.stage.Looked?
  {
    match Reserve(db, caller.key, caller.request)
    case Rejected(e) => Finished(Err(e))
    case Cached(record) => Finished(Ok(record))
    case Proceed =>
      var previous := caller.stage.previous;
      if previous.Some? && Terminal(previous.value.status) then Answered(previous.value) else Waiting
  }

  function AfterReply(caller: Caller, reply: Option<Record>): Stage {
    match reply
    case None => Finished(Err(ProviderFailed))
    case Some(record) => if Accepts(caller, record) then Answered(record) else Finished(Err(WrongRecord))
  }

  function Next(w: World, step: Step): World {
    match step
    case Sync(records, event) => if event.KeyCompleted? then w else w.(db := Synced(w.db, records, event))
    case _ =>
      var i := step.caller;
      if i >= |w.callers| then w
      else
        var caller := w.callers[i];
        match step
        case Look(_, fileExists) =>
          if caller.stage.Arrived? then Moved(w, i, LookUp(w.db, caller, fileExists)) else w
        case TryReserve(_) =>
          if caller.stage.Looked? then
            Moved(w, i, AfterReserve(w.db, caller)).(db := Reserved(w.db, caller.key, caller.request))
          else w
        case Provide(_, reply) =>
          if caller.stage.Waiting? then Moved(w, i, AfterReply(caller, reply)).(provided := w.provided + {i}) else w
        case TryComplete(_) =>
          if caller.stage.Answered? then
            var record := caller.stage.record;
            var error := CompleteError(w.db, KeyOf(caller.key.create, caller.key.text, record), caller.request, record);
            Moved(w, i, Finished(if error.Some? then Err(error.value) else Ok(record))).(
              db := Complete(w.db, KeyOf(caller.key.create, caller.key.text, record), caller.request, record))
          else w
  }

  function Moved(w: World, i: nat, stage: Stage): World
    requires i < |w.callers|
  {
    w.(callers := w.callers[i := w.callers[i].(stage := stage)])
  }

  function Run(w: World, steps: seq<Step>): World
    decreases |steps|
  {
    if steps == [] then w else Run(Next(w, steps[0]), steps[1..])
  }

  /** A caller past its reservation has an entry for its own request, and answers are in scope. */
  ghost predicate CallerOk(db: Database, caller: Caller) {
    && (caller.stage.Waiting? || caller.stage.Answered? ==>
          caller.key in db.entries && db.entries[caller.key].request == caller.request)
    && (caller.stage.Answered? ==>
          KeyOf(caller.key.create, caller.key.text, caller.stage.record) == caller.key)
    && (caller.stage.Looked? && caller.stage.previous.Some? ==>
          KeyOf(caller.key.create, caller.key.text, caller.stage.previous.value) == caller.key)
  }

  ghost predicate WorldOk(w: World) {
    Sound(w.db) && forall i | 0 <= i < |w.callers| :: CallerOk(w.db, w.callers[i])
  }

  lemma CallersLater(before: Database, after: Database, callers: seq<Caller>)
    requires Extends(before, after) && forall i | 0 <= i < |callers| :: CallerOk(before, callers[i])
    ensures forall i | 0 <= i < |callers| :: CallerOk(after, callers[i])
  {
    forall i | 0 <= i < |callers| ensures CallerOk(after, callers[i]) {
      assert CallerOk(before, callers[i]);
      if callers[i].key in before.entries {
        assert EntryKept(before.entries[callers[i].key], after.entries, callers[i].key);
      }
    }
  }

  lemma ExtendsSelf(db: Database)
    ensures Extends(db, db)
  {
  }

  lemma DatabaseStep(w: World, step: Step)
    requires WorldOk(w)
    ensures Sound(Next(w, step).db) && Extends(w.db, Next(w, step).db)
  {
    hide Sound, Extends, Reserved, Complete, Synced;
    ExtendsSelf(w.db);
    match step {
      case Sync(records, event) =>
        if !event.KeyCompleted? {
          SyncIsSound(w.db, records, event);
        }
      case _ =>
        if step.caller < |w.callers| {
          var caller := w.callers[step.caller];
          ReserveIsSound(w.db, caller.key, caller.request);
          if caller.stage.Answered? {
            var record := caller.stage.record;
            CompleteIsSound(w.db, KeyOf(caller.key.create, caller.key.text, record), caller.request, record);
          }
        }
    }
  }

  lemma StepKeepsWorldOk(w: World, step: Step)
    requires WorldOk(w)
    ensures WorldOk(Next(w, step)) && Extends(w.db, Next(w, step).db)
  {
    var after := Next(w, step);
    DatabaseStep(w, step);
    CallersLater(w.db, after.db, w.callers);
    StoredScope(w);
    hide Sound, Extends, UpsertError, Terminal;
    forall i | 0 <= i < |after.callers| ensures CallerOk(after.db, after.callers[i]) {
      assert CallerOk(w.db, w.callers[i]) && CallerOk(after.db, w.callers[i]);
    }
  }

  lemma StoredScope(w: World)
    requires WorldOk(w)
    ensures forall b | b in w.db.batches :: w.db.batches[b].batch == b
  {
  }

  /** Every run, with any interleaving and any crashes: a key's request and response never
      change, it has one completion event exactly when it is completed, and stored batches
      never leave a terminal status or lose time or counts. */
  lemma {:induction false} RunIsSound(w: World, steps: seq<Step>)
    requires WorldOk(w)
    ensures WorldOk(Run(w, steps)) && Extends(w.db, Run(w, steps).db)
    decreases |steps|
  {
    hide WorldOk, Extends, Next;
    ExtendsSelf(w.db);
    if steps == [] {
    } else {
      StepKeepsWorldOk(w, steps[0]);
      RunIsSound(Next(w, steps[0]), steps[1..]);
      ExtendsTransitive(w.db, Next(w, steps[0]).db, Run(w, steps).db);
    }
  }

  ghost predicate TooLate(w: World, i: nat) {
    && i < |w.callers| && i !in w.provided
    && (w.callers[i].stage.Arrived? || w.callers[i].stage.Looked? || w.callers[i].stage.Finished?)
    && w.callers[i].key in w.db.entries && w.db.entries[w.callers[i].key].response.Some?
  }

  lemma StepKeepsTooLate(w: World, i: nat, step: Step)
    requires WorldOk(w) && TooLate(w, i)
    ensures TooLate(Next(w, step), i)
  {
    var key := w.callers[i].key;
    DatabaseStep(w, step);
    assert EntryKept(w.db.entries[key], Next(w, step).db.entries, key);
    hide WorldOk, Extends, Sound, UpsertError;
  }

  /** A caller that has not reserved when its key is completed never reaches the provider. */
  lemma {:induction false} NoProviderCallAfterCompletion(w: World, i: nat, steps: seq<Step>)
    requires WorldOk(w) && TooLate(w, i)
    ensures i !in Run(w, steps).provided
    decreases |steps|
  {
    hide WorldOk, Next;
    if steps == [] {
    } else {
      StepKeepsWorldOk(w, steps[0]);
      StepKeepsTooLate(w, i, steps[0]);
      NoProviderCallAfterCompletion(Next(w, steps[0]), i, steps[1..]);
    }
  }

  /** The reservation a caller made is still there when it completes: that error is unreachable. */
  lemma ReservationNeverChanges(w: World, steps: seq<Step>, i: nat)
    requires WorldOk(w)
    ensures var after := Run(w, steps);
            i < |after.callers| && after.callers[i].stage.Answered? ==>
              var caller := after.callers[i];
              CompleteError(after.db, KeyOf(caller.key.create, caller.key.text, caller.stage.record), caller.request, caller.stage.record)
              != Some(KeyConflict)
  {
    RunIsSound(w, steps);
    var after := Run(w, steps);
    if i < |after.callers| {
      assert CallerOk(after.db, after.callers[i]);
    }
  }

  // ---------- The service's tables

  class BatchService {
    var entries: map<Key, Entry>
    var batches: map<BatchId, Record>
    var audit: seq<Event>

    ghost function State(): Database
      reads this
    {
      Database(entries, batches, audit)
    }

    ghost predicate Valid()
      reads this
    {
      Sound(State())
    }

    constructor ()
      ensures Valid() && State() == Database(map[], map[], [])
    {
      entries, batches, audit := map[], map[], [];
    }

    method ReserveKey(key: Key, request: Request) returns (r: Reservation)
      requires Valid()
      modifies this`entries
      ensures Valid() && Extends(old(State()), State())
      ensures r == Reserve(old(State()), key, request) && State() == Reserved(old(State()), key, request)
    {
      ReserveIsSound(State(), key, request);
      hide Sound, Extends;
      if !AcceptableKey(key.text) {
        return Rejected(BadKey);
      }
      if key !in entries {
        entries := entries[key := Entry(request, None)];
        return Proceed;
      }
      if entries[key].request != request {
        return Rejected(KeyConflict);
      }
      return match entries[key].response case Some(record) => Cached(record) case None => Proceed;
    }

    method Upsert(record: Record) returns (error: Option<BatchError>)
      modifies this`batches
      ensures error == UpsertError(old(batches), record)
      ensures batches == if error.None? then old(batches)[record.batch := record] else old(batches)
    {
      if record.batch in batches {
        var previous := batches[record.batch];
        if record.updatedAt < previous.updatedAt {
          return Some(Stale);
        }
        if Terminal(previous.status) && record.status != previous.status {
          return Some(LeftTerminal);
        }
        if record.completed < previous.completed || record.failed < previous.failed {
          return Some(CountsRegressed);
        }
      }
      batches := batches[record.batch := record];
      return None;
    }

    /** Stores the record, the response and the audit event together, or nothing. */
    method CompleteKey(create: bool, text: string, request: Request, record: Record) returns (error: Option<BatchError>)
      requires Valid()
      modifies this
      ensures Valid() && Extends(old(State()), State())
      ensures error == CompleteError(old(State()), KeyOf(create, text, record), request, record)
      ensures State() == Complete(old(State()), KeyOf(create, text, record), request, record)
    {
      var key := KeyOf(create, text, record);
      CompleteIsSound(State(), key, request, record);
      hide Sound, Extends, UpsertError;
      if key !in entries || entries[key].request != request {
        return Some(KeyConflict);
      }
      if entries[key].response.Some? {
        return None;
      }
      error := Upsert(record);
      if error.Some? {
        return;
      }
      entries := entries[key := Entry(request, Some(record))];
      audit := audit + [KeyCompleted(key, record.batch)];
    }

    /** Refreshes a list of batches in one transaction; the first refusal rolls all back. */
    method SyncBatches(records: seq<Record>, event: Event) returns (error: Option<BatchError>)
      requires Valid() && !event.KeyCompleted?
      modifies this
      ensures Valid() && Extends(old(State()), State())
      ensures State() == Synced(old(State()), records, event)
      ensures error.Some? <==> UpsertAll(old(batches), records).Err?
    {
      SyncIsSound(State(), records, event);
      hide Sound, Extends, UpsertError;
      var saved := batches;
      for i := 0 to |records|
        invariant UpsertAll(saved, records[..i]) == Ok(batches) && entries == old(entries) && audit == old(audit)
      {
        assert records[..i + 1][..i] == records[..i];
        error := Upsert(records[i]);
        if error.Some? {
          UpsertAllFails(saved, records, i + 1);
          batches := saved;
          return;
        }
      }
      assert records[..|records|] == records;
      audit := audit + [event];
      return None;
    }
  }

  lemma {:induction false} UpsertAllFails(batches: map<BatchId, Record>, records: seq<Record>, n: nat)
    requires n <= |records| && UpsertAll(batches, records[..n]).Err?
    ensures UpsertAll(batches, records).Err?
    decreases |records| - n
  {
    if n == |records| {
      assert records[..n] == records;
    } else {
      assert records[..n + 1][..n] == records[..n];
      UpsertAllFails(batches, records, n + 1);
    }
  }
}
