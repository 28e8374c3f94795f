/**
  The upload half of functions/dataService.ts: `processSyncItem`, which sends
  one queued operation to the server and folds the server's answer into the
  local tables, and `uploadPendingData`, which does that for every pending
  operation in turn and carries on past failures.

  The server is not modelled: its answer to each queued operation is a
  parameter, a function of the queue key, either a failure with its message
  or the record the server returns.
*/
module SyncUpload {
  import opened Wrappers
  import opened Records
  import opened LocalStore

  /** The server's answer to one call. */
  datatype RemoteOutcome = RemoteFails(message: string) | RemoteReturns(result: Record)

  /** What `processSyncItem` asks of the server. */
  datatype Request =
    | CreateRequest(entityName: string, data: Record)
    | UpdateRequest(entityName: string, target: Value, data: Record)
    | DeleteRequest(entityName: string, target: Value)

  /** The bookkeeping fields stripped from a payload before it is sent. */
  const LocalFields: set<Key> := {LocalId, SyncStatus, SyncError, CreatedAt, UpdatedAt}

  /** The payload without its bookkeeping fields: the rest pattern of the destructuring. */
  function Sendable(payload: Record): (r: Record)
    ensures forall k :: k in r <==> k in payload && k !in LocalFields
    ensures forall k :: k in r ==> r[k] == payload[k]
  {
    map k | k in payload && k !in LocalFields :: payload[k]
  }

  /**
    The call an operation makes. Updates and deletes address `remoteId ||
    localId`; an operation other than the three makes no call.
  */
  function RequestOf(item: SyncItem): (r: Option<Request>)
    ensures r.None? <==> item.operation.OtherOp?
    ensures r.Some? ==> r.value.entityName == item.entityName
    ensures r.Some? && !r.value.CreateRequest? ==> r.value.target == (if IsTruthy(item.remoteId) then item.remoteId else item.localId)
    ensures r.Some? && !r.value.DeleteRequest? ==> forall k :: k in r.value.data ==> k !in LocalFields
  {
    match item.operation
    case CreateOp => Some(CreateRequest(item.entityName, Sendable(item.payload)))
    case UpdateOp => Some(UpdateRequest(item.entityName, Or(item.remoteId, item.localId), Sendable(item.payload)))
    case DeleteOp => Some(DeleteRequest(item.entityName, Or(item.remoteId, item.localId)))
    case OtherOp(_) => None
  }

  function UnsupportedError(op: string): string {
    "Operação " + op + " não suportada"
  }

  /** The TypeError that reading `mapping.table` raises when the entity has no mapping. */
  const NoMappingError: string := "Cannot read properties of undefined (reading 'table')"

  /** `{ ...result, _syncStatus: 'synced', _syncError: null }` */
  function Synced(result: Record): (r: Record)
    ensures forall k :: k in result && k != SyncStatus && k != SyncError ==> k in r && r[k] == result[k]
    ensures Lookup(r, SyncStatus) == Str("synced") && Lookup(r, SyncError) == Null
  {
    result[SyncStatus := Str("synced")][SyncError := Null]
  }

  /**
    The message `processSyncItem` throws with, if it throws: an unknown
    operation before any call, then a failed call, then a missing mapping
    after the call. None of it depends on the local tables.
  */
  function Failure(item: SyncItem, outcome: RemoteOutcome): Option<string> {
    if item.operation.OtherOp? then Some(UnsupportedError(item.operation.text))
    else if outcome.RemoteFails? then Some(outcome.message)
    else if EntityMapping(item.entityName).None? then Some(NoMappingError)
    else None
  }

  /** The local writes once the server has answered with `result`, ending with the queue entry's removal. */
  function Apply(db: Db, key: string, item: SyncItem, t: TableId, result: Record, now: int): Db {
    var rows := Table(db, t);
    var d := match item.operation
      case CreateOp =>
        WithTable(db, t, Put(rows - {item.localId}, Synced(result)))
          .(idMappings := db.idMappings[item.localId := IdMapping(Lookup(result, Id), item.entityName, now)])
      case UpdateOp => WithTable(db, t, Put(rows, Synced(result)))
      case DeleteOp => WithTable(db, t, rows - {item.localId})
      case OtherOp(_) => db;
    d.(queue := d.queue - {key})
  }

  /**
    processSyncItem of the operation stored under `key`: it throws exactly
    when `Failure` says so, and then nothing is written. On success the
    entity's table is updated, a create records the local-to-remote id
    mapping, and the operation leaves the queue while every other queued
    operation stays as it was: no other operation's ids are rewritten.
  */
  function ProcessSyncItem(db: Db, key: string, item: SyncItem, outcome: RemoteOutcome, now: int): (r: Result<Db, string>)
    ensures r.Err? <==> Failure(item, outcome).Some?
    ensures r.Err? ==> r.error == Failure(item, outcome).value
    ensures r.Ok? ==> forall k :: k in r.value.queue <==> k in db.queue && k != key
    ensures r.Ok? ==> forall k :: k in r.value.queue ==> r.value.queue[k] == db.queue[k]
    ensures r.Ok? ==> OtherTablesKept(db, r.value, EntityMapping(item.entityName).value.table)
    ensures r.Ok? && item.operation.CreateOp? ==>
      && Table(r.value, EntityMapping(item.entityName).value.table)
         == (Table(db, EntityMapping(item.entityName).value.table) - {item.localId})[Lookup(outcome.result, Id) := Synced(outcome.result)]
      && r.value.idMappings == db.idMappings[item.localId := IdMapping(Lookup(outcome.result, Id), item.entityName, now)]
    ensures r.Ok? && item.operation.UpdateOp? ==>
      && Table(r.value, EntityMapping(item.entityName).value.table)
         == Table(db, EntityMapping(item.entityName).value.table)[Lookup(outcome.result, Id) := Synced(outcome.result)]
      && r.value.idMappings == db.idMappings
    ensures r.Ok? && item.operation.DeleteOp? ==>
      && Table(r.value, EntityMapping(item.entityName).value.table) == Table(db, EntityMapping(item.entityName).value.table) - {item.localId}
      && r.value.idMappings == db.idMappings
  {
    match Failure(item, outcome)
    case Some(m) => Err(m)
    case None => Ok(Apply(db, key, item, EntityMapping(item.entityName).value.table, outcome.result, now))
  }

  /** A queued operation together with the key it is stored under. */
  datatype Entry = Entry(key: string, item: SyncItem)

  /** An entry of `results.errors`. */
  datatype SyncFailure = SyncFailure(itemId: string, message: string)

  /** `results` of uploadPendingData. */
  datatype Summary = Summary(success: nat, failed: nat, errors: seq<SyncFailure>)

  /** The database after an upload and the summary it returns. */
  datatype Uploaded = Uploaded(db: Db, summary: Summary)

  /**
    `db.syncQueue.update(item.id, { status: 'failed', attempts: item.attempts + 1, error })`:
    the attempts count from the snapshot taken before the loop, and a key that
    is no longer stored is left alone.
  */
  function MarkFailed(queue: map<string, SyncItem>, e: Entry, message: string): (q: map<string, SyncItem>)
    ensures forall k :: k in q <==> k in queue
    ensures forall k :: k in queue && k != e.key ==> q[k] == queue[k]
  {
    if e.key in queue then queue[e.key := queue[e.key].(status := Failed, attempts := e.item.attempts + 1, error := Str(message))]
    else queue
  }

  /** The failures the run reports from entry `i` on, in order; they depend on the operations and the answers alone. */
  function Failures(entries: seq<Entry>, server: string -> RemoteOutcome, i: nat): (fs: seq<SyncFailure>)
    requires i <= |entries|
    decreases |entries| - i
  {
    if i == |entries| then []
    else
      var rest := Failures(entries, server, i + 1);
      match Failure(entries[i].item, server(entries[i].key))
      case Some(m) => [SyncFailure(entries[i].key, m)] + rest
      case None => rest
  }

  /**
    The loop of uploadPendingData from entry `i` on: each operation is
    processed in turn on the database the previous ones left, a success is
    counted, and a failure is counted, reported and marked on the queue, after
    which the loop goes on. Every entry is counted once, and the reported
    errors are exactly the failures, whatever the tables hold.
  */
  function Drain(db: Db, entries: seq<Entry>, server: string -> RemoteOutcome, i: nat, now: int): (u: Uploaded)
    requires i <= |entries|
    ensures u.summary.success + u.summary.failed == |entries| - i
    ensures u.summary.errors == Failures(entries, server, i)
    ensures u.summary.failed == |u.summary.errors|
    decreases |entries| - i
  {
    if i == |entries| then Uploaded(db, Summary(0, 0, []))
    else
      var e := entries[i];
      match ProcessSyncItem(db, e.key, e.item, server(e.key), now)
      case Ok(d) =>
        var rest := Drain(d, entries, server, i + 1, now);
        Uploaded(rest.db, rest.summary.(success := rest.summary.success + 1))
      case Err(m) =>
        var rest := Drain(db.(queue := MarkFailed(db.queue, e, m)), entries, server, i + 1, now);
        Uploaded(rest.db, Summary(rest.summary.success, rest.summary.failed + 1, [SyncFailure(e.key, m)] + rest.summary.errors))
  }

  /** No two entries share a key. */
  predicate DistinctKeys(entries: seq<Entry>) {
    forall i, j :: 0 <= i < j < |entries| ==> entries[i].key != entries[j].key
  }

  /** A queue entry that the run from `i` on does not process is left as it was. */
  lemma {:induction false} DrainKeepsOthers(db: Db, entries: seq<Entry>, server: string -> RemoteOutcome, i: nat, now: int, k: string)
    requires i <= |entries|
    requires forall j :: i <= j < |entries| ==> entries[j].key != k
    ensures k in Drain(db, entries, server, i, now).db.queue <==> k in db.queue
    ensures k in db.queue ==> Drain(db, entries, server, i, now).db.queue[k] == db.queue[k]
    decreases |entries| - i
  {
    if i < |entries| {
      var e := entries[i];
      match ProcessSyncItem(db, e.key, e.item, server(e.key), now)
      case Ok(d) =>
        DrainKeepsOthers(d, entries, server, i + 1, now, k);
      case Err(m) =>
        DrainKeepsOthers(db.(queue := MarkFailed(db.queue, e, m)), entries, server, i + 1, now, k);
    }
  }

  /** The queue entry of the operation at `j` after its failed attempt. */
  function FailedEntry(stored: SyncItem, e: Entry, message: string): SyncItem {
    stored.(status := Failed, attempts := e.item.attempts + 1, error := Str(message))
  }

  /**
    What the run from `i` on leaves of the operation at `j`: a success leaves
    the queue, a failure stays, marked 'failed' with one more attempt and its
    message, whatever happened to the operations before it.
  */
  lemma {:induction false} DrainKeyOutcome(db: Db, entries: seq<Entry>, server: string -> RemoteOutcome, i: nat, now: int, j: nat)
    requires i <= j < |entries| && DistinctKeys(entries) && entries[j].key in db.queue
    ensures Failure(entries[j].item, server(entries[j].key)).None? ==>
      entries[j].key !in Drain(db, entries, server, i, now).db.queue
    ensures Failure(entries[j].item, server(entries[j].key)).Some? ==>
      && entries[j].key in Drain(db, entries, server, i, now).db.queue
      && Drain(db, entries, server, i, now).db.queue[entries[j].key]
         == FailedEntry(db.queue[entries[j].key], entries[j], Failure(entries[j].item, server(entries[j].key)).value)
    decreases j - i
  {
    var e := entries[i];
    var key := entries[j].key;
    match ProcessSyncItem(db, e.key, e.item, server(e.key), now)
    case Ok(d) =>
      if i == j {
        DrainKeepsOthers(d, entries, server, i + 1, now, key);
      } else {
        DrainKeyOutcome(d, entries, server, i + 1, now, j);
      }
    case Err(m) =>
      var d := db.(queue := MarkFailed(db.queue, e, m));
      if i == j {
        DrainKeepsOthers(d, entries, server, i + 1, now, key);
      } else {
        DrainKeyOutcome(d, entries, server, i + 1, now, j);
      }
  }

  /**
    The keys the `where('status').equals('pending')` query returns, in its
    order: each pending operation exactly once and nothing else.
  */
  predicate PendingOrder(db: Db, order: seq<string>) {
    && (forall i, j :: 0 <= i < j < |order| ==> order[i] != order[j])
    && (forall i :: 0 <= i < |order| ==> order[i] in db.queue && db.queue[order[i]].status == Pending)
    && (forall k :: k in db.queue && db.queue[k].status == Pending ==> k in order)
  }

  /** The operations the query returns, as stored before the loop. */
  function Snapshot(db: Db, order: seq<string>): (entries: seq<Entry>)
    requires forall i :: 0 <= i < |order| ==> order[i] in db.queue
    ensures |entries| == |order|
    ensures forall i :: 0 <= i < |order| ==> entries[i] == Entry(order[i], db.queue[order[i]])
  {
    seq(|order|, i requires 0 <= i < |order| => Entry(order[i], db.queue[order[i]]))
  }

  /**
    uploadPendingData: offline it returns zero counts and touches nothing;
    online it processes every pending operation, so successes and failures
    add up to the number of pending operations, and one error is reported per
    failure, in order.
  */
  function Upload(db: Db, online: bool, order: seq<string>, server: string -> RemoteOutcome, now: int): (u: Uploaded)
    requires PendingOrder(db, order)
    ensures !online ==> u == Uploaded(db, Summary(0, 0, []))
    ensures online ==>
      && u.summary.success + u.summary.failed == |order|
      && u.summary.failed == |u.summary.errors|
      && u.summary.errors == Failures(Snapshot(db, order), server, 0)
  {
    if !online then Uploaded(db, Summary(0, 0, []))
    else Drain(db, Snapshot(db, order), server, 0, now)
  }

  /**
    Online, every pending operation is attempted: one that succeeds leaves
    the queue, one that fails stays, marked 'failed' with one more attempt
    and the error's message.
  */
  lemma UploadKeyOutcome(db: Db, order: seq<string>, server: string -> RemoteOutcome, now: int, k: string)
    requires PendingOrder(db, order)
    requires k in db.queue && db.queue[k].status == Pending
    ensures Failure(db.queue[k], server(k)).None? ==> k !in Upload(db, true, order, server, now).db.queue
    ensures Failure(db.queue[k], server(k)).Some? ==>
      && k in Upload(db, true, order, server, now).db.queue
      && Upload(db, true, order, server, now).db.queue[k]
         == db.queue[k].(status := Failed, attempts := db.queue[k].attempts + 1, error := Str(Failure(db.queue[k], server(k)).value))
  {
    var entries := Snapshot(db, order);
    var j :| 0 <= j < |order| && order[j] == k;
    assert entries[j] == Entry(k, db.queue[k]);
    assert DistinctKeys(entries) by {
      forall a, b | 0 <= a < b < |entries| ensures entries[a].key != entries[b].key {
        assert entries[a].key == order[a] && entries[b].key == order[b];
      }
    }
    DrainKeyOutcome(db, entries, server, 0, now, j);
  }

  /**
    An operation that is not pending, such as one that failed before, is not
    retried: the upload leaves it as it was.
  */
  lemma UploadSkipsNonPending(db: Db, online: bool, order: seq<string>, server: string -> RemoteOutcome, now: int, k: string)
    requires PendingOrder(db, order)
    requires k in db.queue && db.queue[k].status != Pending
    ensures k in Upload(db, online, order, server, now).db.queue
    ensures Upload(db, online, order, server, now).db.queue[k] == db.queue[k]
  {
    if online {
      var entries := Snapshot(db, order);
      forall j | 0 <= j < |entries| ensures entries[j].key != k {
        assert entries[j].key == order[j];
      }
      DrainKeepsOthers(db, entries, server, 0, now, k);
    }
  }

  /**
    What a created record's operation sends: the record's own fields that are
    defined, including the local id `create` gave it, and none of the
    bookkeeping ones.
  */
  lemma SentOfCreated(data: Record, localId: string, now: int)
    requires Id !in data
    ensures Lookup(Sendable(Json(CreatedRecord(data, localId, now))), Id) == Str(localId)
    ensures forall k :: k in data && k !in LocalFields && data[k] != Undefined ==>
      k in Sendable(Json(CreatedRecord(data, localId, now))) && Sendable(Json(CreatedRecord(data, localId, now)))[k] == data[k]
    ensures forall k :: k in Sendable(Json(CreatedRecord(data, localId, now))) ==> k !in LocalFields && (k == Id || k in data)
  {
    var rec := CreatedRecord(data, localId, now);
    CreatedRecordUnit(data, localId, now);
    assert forall k :: k in rec ==> k in data || k == Id || k in CreateFields;
  }

  /** A created record's queued operation is a create call for its entity carrying the record's fields. */
  lemma CreateSendsRecord(db: Db, t: TableId, name: string, data: Record, localId: string, queueId: string, now: int)
    requires queueId !in db.queue && Id !in data
    ensures
      var w := CreateIn(db, t, name, data, localId, queueId, now);
      RequestOf(w.db.queue[queueId]) == Some(CreateRequest(name, Sendable(Json(CreatedRecord(data, localId, now)))))
  {
  }

  /**
    Creating a record and syncing its operation with a server that stores it
    as `result`: the local record gives way to the server's one, marked
    synced, the queue holds what it held before, the local id maps to the
    server's id, and no other table changes.
  */
  lemma CreateThenSync(db: Db, t: TableId, name: string, data: Record, localId: string, queueId: string, now: int,
                       result: Record, later: int)
    requires queueId !in db.queue && Id !in data
    requires EntityMapping(name).Some? && EntityMapping(name).value.table == t
    ensures
      var w := CreateIn(db, t, name, data, localId, queueId, now);
      var r := ProcessSyncItem(w.db, queueId, w.db.queue[queueId], RemoteReturns(result), later);
      && r.Ok?
      && (forall k :: k in r.value.queue <==> k in db.queue)
      && (forall k :: k in db.queue ==> r.value.queue[k] == db.queue[k])
      && Table(r.value, t) == (Table(db, t) - {Str(localId)})[Lookup(result, Id) := Synced(result)]
      && OtherTablesKept(db, r.value, t)
      && r.value.idMappings == db.idMappings[Str(localId) := IdMapping(Lookup(result, Id), name, later)]
  {
    var w := CreateIn(db, t, name, data, localId, queueId, now);
    CreatedRecordUnit(data, localId, now);
    assert Table(w.db, t) - {Str(localId)} == Table(db, t) - {Str(localId)};
  }
}
