/**
  The browser-side store of pending operations and cached data
  (src/components/offline/offlineStorage.jsx). IndexedDB's object stores
  are maps: 'pending_operations' keyed by an auto-incremented number,
  'cached_data' keyed by the caller's key, 'photos' keyed by number. The
  clock is a parameter.
*/
module OfflineStorage {
  import opened Wrappers
  import opened Records

  /**
    An operation as a caller hands it to addPendingOperation; it may carry
    a numeric `id`, which the key path takes as its key, and a status and a
    timestamp of its own.
  */
  datatype OpInput = OpInput(
    id: Option<nat>,
    entity: string,
    opType: string,
    data: Record,
    priority: Option<int>,
    status: Option<string>,
    timestamp: Option<int>)

  /** A stored operation. `error` is absent until a status update writes one (or `null`). */
  datatype StoredOp = StoredOp(
    entity: string,
    opType: string,
    data: Record,
    priority: Option<int>,
    status: string,
    timestamp: int,
    error: Value,
    lastAttempt: Option<int>)

  /** An entry of 'cached_data'. */
  datatype CacheEntry = CacheEntry(entity: string, data: Value, timestamp: int)

  /** An entry of 'photos': whether it still has to be uploaded and whether it holds the image. */
  datatype Photo = Photo(needsUpload: bool, hasBlob: bool)

  /** The object stores, with the key generator of 'pending_operations'. */
  datatype Store = Store(
    ops: map<nat, StoredOp>,
    nextOpKey: nat,
    cached: map<string, CacheEntry>,
    photos: map<nat, Photo>)

  /** The key generator is ahead of every key it handed out: no operation carries a key of its own. */
  predicate Valid(s: Store) {
    forall k :: k in s.ops ==> k < s.nextOpKey
  }

  /** The status a new operation gets, and the one the counter counts. */
  const PendingStatus: string := "pending"

  /** The result of `add`: the store and the key the operation got. */
  datatype Added = Added(store: Store, key: nat)

  /** The error `add` reports when the key is already taken. */
  const KeyTakenError: string := "ConstraintError"

  /**
    addPendingOperation: `{...operation, timestamp, status: 'pending'}`.
    The caller's own status and timestamp are overridden. The caller's `id`
    is the key when present, and the request fails, changing nothing, when
    that key is taken; otherwise the key generator hands out the key. A key
    at or above the generator moves the generator past it.
  */
  function AddPendingOperation(s: Store, op: OpInput, now: int): (r: Result<Added, string>)
    requires Valid(s)
    ensures r.Err? <==> op.id.Some? && op.id.value in s.ops
    ensures r.Err? ==> r.error == KeyTakenError
    ensures r.Ok? ==> Valid(r.value.store) && r.value.key !in s.ops && (op.id.Some? ==> r.value.key == op.id.value)
    ensures r.Ok? ==> forall k :: k in r.value.store.ops <==> k in s.ops || k == r.value.key
    ensures r.Ok? ==> forall k :: k in s.ops ==> r.value.store.ops[k] == s.ops[k]
    ensures r.Ok? ==>
      r.value.store.ops[r.value.key] == StoredOp(op.entity, op.opType, op.data, op.priority, PendingStatus, now, Undefined, None)
    ensures r.Ok? ==> r.value.store.cached == s.cached && r.value.store.photos == s.photos
    ensures r.Ok? ==> s.nextOpKey <= r.value.store.nextOpKey
  {
    if op.id.Some? && op.id.value in s.ops then Err(KeyTakenError)
    else
      var key := if op.id.Some? then op.id.value else s.nextOpKey;
      var stored := StoredOp(op.entity, op.opType, op.data, op.priority, PendingStatus, now, Undefined, None);
      var next := if key >= s.nextOpKey then key + 1 else s.nextOpKey;
      Ok(Added(s.(ops := s.ops[key := stored], nextOpKey := next), key))
  }

  /** removePendingOperation: exactly the given key goes; a missing one is no error. */
  function RemovePendingOperation(s: Store, id: nat): (r: Store)
    ensures forall k :: k in r.ops <==> k in s.ops && k != id
    ensures forall k :: k in r.ops ==> r.ops[k] == s.ops[k]
    ensures r.nextOpKey == s.nextOpKey && r.cached == s.cached && r.photos == s.photos
    ensures Valid(s) ==> Valid(r)
  {
    s.(ops := s.ops - {id})
  }

  /** markOperationProcessing: an existing operation's status becomes 'processing'; an unknown id changes nothing. */
  function MarkOperationProcessing(s: Store, id: nat): (r: Store)
    ensures id !in s.ops ==> r == s
    ensures id in s.ops ==> r == s.(ops := s.ops[id := s.ops[id].(status := "processing")])
    ensures Valid(s) ==> Valid(r)
  {
    if id in s.ops then s.(ops := s.ops[id := s.ops[id].(status := "processing")]) else s
  }

  /**
    updateOperationStatus: an existing operation gets the status, the error
    (`null` when none is given) and the time of the attempt; its other
    fields stay. An unknown id changes nothing.
  */
  function UpdateOperationStatus(s: Store, id: nat, status: string, error: Value, now: int): (r: Store)
    ensures id !in s.ops ==> r == s
    ensures forall k :: k in r.ops <==> k in s.ops
    ensures id in s.ops ==> r.ops[id] == s.ops[id].(status := status, error := error, lastAttempt := Some(now))
    ensures forall k :: k in s.ops && k != id ==> r.ops[k] == s.ops[k]
    ensures r.nextOpKey == s.nextOpKey && r.cached == s.cached && r.photos == s.photos
    ensures Valid(s) ==> Valid(r)
  {
    if id in s.ops then s.(ops := s.ops[id := s.ops[id].(status := status, error := error, lastAttempt := Some(now))]) else s
  }

  /** A stored operation with its key. */
  datatype Entry = Entry(key: nat, op: StoredOp)

  /** The entries with keys below `n`, in ascending key order. */
  function EntriesBelow(ops: map<nat, StoredOp>, n: nat): (es: seq<Entry>)
    ensures forall e :: e in es ==> e.key < n && e.key in ops && e.op == ops[e.key]
    ensures forall i, j :: 0 <= i < j < |es| ==> es[i].key < es[j].key
    ensures forall k :: k in ops && k < n ==> Entry(k, ops[k]) in es
  {
    if n == 0 then []
    else
      var below := EntriesBelow(ops, n - 1);
      if n - 1 in ops then below + [Entry(n - 1, ops[n - 1])] else below
  }

  /** getPendingOperations: every stored operation, in key order, whatever its status. */
  function GetPendingOperations(s: Store): (es: seq<Entry>)
    requires Valid(s)
    ensures forall e :: e in es ==> e.key in s.ops && e.op == s.ops[e.key]
    ensures forall i, j :: 0 <= i < j < |es| ==> es[i].key < es[j].key
    ensures forall k :: k in s.ops ==> Entry(k, s.ops[k]) in es
  {
    EntriesBelow(s.ops, s.nextOpKey)
  }

  /** How many of the entries have status 'pending'. */
  function CountPending(es: seq<Entry>): nat {
    if es == [] then 0
    else CountPending(es[..|es| - 1]) + (if es[|es| - 1].op.status == PendingStatus then 1 else 0)
  }

  /** getPendingOperationsCount: the stored operations whose status is 'pending'. */
  function GetPendingOperationsCount(s: Store): nat
    requires Valid(s)
  {
    CountPending(GetPendingOperations(s))
  }

  /** The operation under `k` exists and is pending. */
  predicate PendingAt(ops: map<nat, StoredOp>, k: nat) {
    k in ops && ops[k].status == PendingStatus
  }

  /** The pending operations with keys below `n`, counted key by key. */
  function PendingBelow(ops: map<nat, StoredOp>, n: nat): nat {
    if n == 0 then 0 else PendingBelow(ops, n - 1) + (if PendingAt(ops, n - 1) then 1 else 0)
  }

  /** Counting the listed entries is counting the pending keys. */
  lemma {:induction false} CountPendingBelow(ops: map<nat, StoredOp>, n: nat)
    ensures CountPending(EntriesBelow(ops, n)) == PendingBelow(ops, n)
  {
    if n > 0 {
      CountPendingBelow(ops, n - 1);
      var below := EntriesBelow(ops, n - 1);
      if n - 1 in ops {
        CountPendingSnoc(below, Entry(n - 1, ops[n - 1]));
      }
    }
  }

  lemma CountPendingSnoc(es: seq<Entry>, e: Entry)
    ensures CountPending(es + [e]) == CountPending(es) + (if e.op.status == PendingStatus then 1 else 0)
  {
    assert (es + [e])[..|es|] == es;
  }

  /**
    Two stores that agree on which keys are pending, except at `id`, count
    the same below `id` and differ by that key's contribution above it.
  */
  lemma {:induction false} PendingBelowChange(ops: map<nat, StoredOp>, ops2: map<nat, StoredOp>, id: nat, n: nat)
    requires forall k :: k != id ==> PendingAt(ops2, k) == PendingAt(ops, k)
    ensures PendingBelow(ops2, n) + (if id < n && PendingAt(ops, id) then 1 else 0)
         == PendingBelow(ops, n) + (if id < n && PendingAt(ops2, id) then 1 else 0)
  {
    if n > 0 {
      PendingBelowChange(ops, ops2, id, n - 1);
    }
  }

  /** Counting past every key counts nothing more. */
  lemma {:induction false} PendingBelowBeyond(ops: map<nat, StoredOp>, m: nat, n: nat)
    requires m <= n && forall k :: k in ops ==> k < m
    ensures PendingBelow(ops, n) == PendingBelow(ops, m)
    decreases n - m
  {
    if m < n {
      PendingBelowBeyond(ops, m, n - 1);
    }
  }

  /** A successful add adds one to the count; a failed one leaves the store as it was. */
  lemma CountAfterAdd(s: Store, op: OpInput, now: int)
    requires Valid(s)
    ensures var r := AddPendingOperation(s, op, now);
      r.Ok? ==> GetPendingOperationsCount(r.value.store) == GetPendingOperationsCount(s) + 1
  {
    var r := AddPendingOperation(s, op, now);
    if r.Ok? {
      var a := r.value;
      CountPendingBelow(s.ops, s.nextOpKey);
      CountPendingBelow(a.store.ops, a.store.nextOpKey);
      PendingBelowChange(s.ops, a.store.ops, a.key, a.store.nextOpKey);
      PendingBelowBeyond(s.ops, s.nextOpKey, a.store.nextOpKey);
    }
  }

  /** Removing a pending operation takes one off the count. */
  lemma CountAfterRemove(s: Store, id: nat)
    requires Valid(s) && id in s.ops && s.ops[id].status == PendingStatus
    ensures GetPendingOperationsCount(RemovePendingOperation(s, id)) == GetPendingOperationsCount(s) - 1
  {
    var removed := RemovePendingOperation(s, id);
    CountPendingBelow(s.ops, s.nextOpKey);
    CountPendingBelow(removed.ops, s.nextOpKey);
    PendingBelowChange(s.ops, removed.ops, id, s.nextOpKey);
  }

  /** Marking a pending operation as processing takes one off the count too. */
  lemma CountAfterMarkProcessing(s: Store, id: nat)
    requires Valid(s) && id in s.ops && s.ops[id].status == PendingStatus
    ensures GetPendingOperationsCount(MarkOperationProcessing(s, id)) == GetPendingOperationsCount(s) - 1
  {
    var marked := MarkOperationProcessing(s, id);
    CountPendingBelow(s.ops, s.nextOpKey);
    CountPendingBelow(marked.ops, s.nextOpKey);
    PendingBelowChange(s.ops, marked.ops, id, s.nextOpKey);
  }

  /**
    clearOfflineData: the pending operations and the photos are emptied;
    the cached data stays. The key generator is not reset.
  */
  function ClearOfflineData(s: Store): (r: Store)
    ensures r.ops == map[] && r.photos == map[]
    ensures r.cached == s.cached && r.nextOpKey == s.nextOpKey
    ensures Valid(r)
  {
    Store(map[], s.nextOpKey, s.cached, map[])
  }

  /** cacheData: the entry under `key` is replaced. */
  function CacheData(s: Store, key: string, entity: string, data: Value, now: int): (r: Store)
    ensures r.ops == s.ops && r.nextOpKey == s.nextOpKey && r.photos == s.photos
    ensures forall k :: k in r.cached <==> k in s.cached || k == key
    ensures forall k :: k in s.cached && k != key ==> r.cached[k] == s.cached[k]
  {
    s.(cached := s.cached[key := CacheEntry(entity, data, now)])
  }

  /** getCachedData: `result?.data || null`, so a missing entry and falsy data both read as `null`. */
  function GetCachedData(s: Store, key: string): (v: Value)
    ensures IsTruthy(v) || v == Null
  {
    if key in s.cached && IsTruthy(s.cached[key].data) then s.cached[key].data else Null
  }

  /**
    Reading back: the last data cached under a key is what `getCachedData`
    returns when it is truthy, `null` otherwise; other keys read as before,
    and clearing the offline data does not touch the cache.
  */
  lemma CacheReadsBack(s: Store, key: string, entity: string, data: Value, now: int, other: string)
    requires other != key
    ensures GetCachedData(CacheData(s, key, entity, data, now), key) == (if IsTruthy(data) then data else Null)
    ensures GetCachedData(CacheData(s, key, entity, data, now), other) == GetCachedData(s, other)
    ensures GetCachedData(ClearOfflineData(s), key) == GetCachedData(s, key)
  {
  }

  /** After clearing, no operation is pending. */
  lemma ClearLeavesNothingPending(s: Store)
    ensures GetPendingOperationsCount(ClearOfflineData(s)) == 0
  {
    CountPendingBelow(map[], s.nextOpKey);
    PendingBelowChange(map[], map[], 0, s.nextOpKey);
  }
}
