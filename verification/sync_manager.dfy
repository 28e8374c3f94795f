/**
  The drain loop of src/components/offline/SyncManager.jsx:
  `syncPendingOperations` and `executeOperation`. A drain runs only when no
  other drain is in progress and the browser is online; it takes the
  operations whose status is 'pending', orders them by descending priority
  (stably, so ties keep the store's key order), and runs them one at a time.
  Each one is marked 'processing', executed, and removed on success or marked
  'error' with its message on failure, and the loop goes on.

  The server is not modelled: its answer to the call of the operation under
  each key is a parameter, `None` for success or the error's message.
*/
module SyncManager {
  import opened Wrappers
  import opened Text
  import opened Records
  import opened OfflineStorage

  /** The call `executeOperation` makes; the record id is the operation's key. */
  datatype Call =
    | CreateCall(entity: string, data: Record)
    | UpdateCall(entity: string, id: nat, data: Record)
    | DeleteCall(entity: string, id: nat)

  /** executeOperation's dispatch: create, update and delete; any other type throws before calling. */
  function CallOf(e: Entry): (r: Result<Call, string>)
    ensures r.Err? <==> e.op.opType != "create" && e.op.opType != "update" && e.op.opType != "delete"
    ensures r.Err? ==> r.error == "Operação desconhecida: " + e.op.opType
    ensures r.Ok? ==> r.value.entity == e.op.entity
    ensures r.Ok? && !r.value.CreateCall? ==> r.value.id == e.key
  {
    if e.op.opType == "create" then Ok(CreateCall(e.op.entity, e.op.data))
    else if e.op.opType == "update" then Ok(UpdateCall(e.op.entity, e.key, e.op.data))
    else if e.op.opType == "delete" then Ok(DeleteCall(e.op.entity, e.key))
    else Err("Operação desconhecida: " + e.op.opType)
  }

  /** The error executing an operation raises, if any: the dispatch error or the server's. */
  function Execute(e: Entry, server: nat -> Option<string>): Option<string> {
    match CallOf(e)
    case Err(m) => Some(m)
    case Ok(_) => server(e.key)
  }

  /** `op.priority || 0` */
  function Priority(op: StoredOp): int {
    if op.priority.Some? then op.priority.value else 0
  }

  /** The operations with status 'pending', in the order given. */
  function PendingOnly(es: seq<Entry>): (r: seq<Entry>)
    ensures forall e :: e in r <==> e in es && e.op.status == PendingStatus
    ensures (forall i, j :: 0 <= i < j < |es| ==> es[i].key < es[j].key) ==>
            (forall i, j :: 0 <= i < j < |r| ==> r[i].key < r[j].key)
  {
    if es == [] then []
    else
      var rest := PendingOnly(es[1..]);
      assert forall e :: e in rest ==> e in es[1..];
      if es[0].op.status == PendingStatus then [es[0]] + rest else rest
  }

  /**
    `a` comes before `b` in the drain: a higher priority, or the same
    priority and a lower key, which is where a stable sort leaves ties when
    the input is in key order.
  */
  predicate Before(a: Entry, b: Entry) {
    Priority(a.op) > Priority(b.op) || (Priority(a.op) == Priority(b.op) && a.key < b.key)
  }

  predicate Ordered(es: seq<Entry>) {
    forall i, j :: 0 <= i < j < |es| ==> Before(es[i], es[j])
  }

  /** `x` goes before the first element whose priority is not higher than its own. */
  function Insert(x: Entry, s: seq<Entry>): (r: seq<Entry>)
    ensures multiset(r) == multiset(s) + multiset{x}
  {
    if s == [] || Priority(s[0].op) <= Priority(x.op) then [x] + s
    else
      assert s == [s[0]] + s[1..];
      [s[0]] + Insert(x, s[1..])
  }

  /** `pendingOps.sort((a, b) => (b.priority || 0) - (a.priority || 0))`, a stable sort. */
  function SortByPriority(s: seq<Entry>): (r: seq<Entry>)
    ensures multiset(r) == multiset(s)
  {
    if s == [] then []
    else
      assert s == [s[0]] + s[1..];
      Insert(s[0], SortByPriority(s[1..]))
  }

  lemma {:induction false} InsertOrdered(x: Entry, s: seq<Entry>)
    requires Ordered(s) && forall y :: y in s ==> x.key < y.key
    ensures Ordered(Insert(x, s))
  {
    if s == [] || Priority(s[0].op) <= Priority(x.op) {
      forall j | 0 <= j < |s| ensures Before(x, s[j]) {
        if j > 0 {
          assert Before(s[0], s[j]);
        }
      }
    } else {
      assert Ordered(s[1..]);
      InsertOrdered(x, s[1..]);
      var r := Insert(x, s[1..]);
      forall y | y in r ensures Before(s[0], y) {
        assert y in multiset(r);
        if y != x {
          var j :| 0 <= j < |s[1..]| && s[1..][j] == y;
          assert Before(s[0], s[j + 1]);
        }
      }
    }
  }

  /** Sorting operations listed in key order puts them in drain order. */
  lemma {:induction false} SortOrdered(s: seq<Entry>)
    requires forall i, j :: 0 <= i < j < |s| ==> s[i].key < s[j].key
    ensures Ordered(SortByPriority(s))
  {
    if s != [] {
      SortOrdered(s[1..]);
      forall y | y in SortByPriority(s[1..]) ensures s[0].key < y.key {
        assert y in multiset(SortByPriority(s[1..]));
        var j :| 0 <= j < |s[1..]| && s[1..][j] == y;
        assert s[j + 1] == y;
      }
      InsertOrdered(s[0], SortByPriority(s[1..]));
    }
  }

  /**
    There is one drain order: two orderings of the same operations that both
    put higher priorities first and break ties by key are equal, so any
    stable sort of the key-ordered list gives the order `SortByPriority` gives.
  */
  lemma {:induction false} DrainOrderUnique(a: seq<Entry>, b: seq<Entry>)
    requires Ordered(a) && Ordered(b) && multiset(a) == multiset(b)
    ensures a == b
  {
    if a != [] {
      assert |b| == |multiset(b)| == |a|;
      SameHead(a, b);
      TailMultiset(a);
      TailMultiset(b);
      DrainOrderUnique(a[1..], b[1..]);
      assert a == [a[0]] + a[1..] && b == [b[0]] + b[1..];
    }
  }

  /** No operation comes before one that comes before it. */
  lemma BeforeAsymmetric(x: Entry, y: Entry)
    requires Before(x, y)
    ensures !Before(y, x)
  {
  }

  /** Two orderings of the same operations start with the same one. */
  lemma SameHead(a: seq<Entry>, b: seq<Entry>)
    requires Ordered(a) && Ordered(b) && multiset(a) == multiset(b) && a != [] && b != []
    ensures a[0] == b[0]
  {
    assert a[0] in multiset(b) && b[0] in multiset(a);
    var i :| 0 <= i < |b| && b[i] == a[0];
    var j :| 0 <= j < |a| && a[j] == b[0];
    if a[0] != b[0] {
      assert Before(b[0], b[i]) && Before(a[0], a[j]);
      BeforeAsymmetric(a[0], b[0]);
    }
  }

  /** Dropping the first operation of an ordering. */
  lemma TailMultiset(a: seq<Entry>)
    requires a != []
    ensures multiset(a[1..]) == multiset(a) - multiset{a[0]}
    ensures Ordered(a) ==> Ordered(a[1..])
  {
    assert a == [a[0]] + a[1..];
  }

  /** The successes and failures of the loop. */
  datatype Tally = Tally(success: nat, failed: nat)

  /**
    One operation: marked 'processing', executed, then removed on success or
    marked 'error' with the message and the time of the attempt.
  */
  function Step(s: Store, e: Entry, server: nat -> Option<string>, now: int): (r: Store)
    ensures forall k :: k != e.key ==> (k in r.ops <==> k in s.ops)
    ensures forall k :: k != e.key && k in s.ops ==> r.ops[k] == s.ops[k]
    ensures e.key in s.ops && Execute(e, server).None? ==> e.key !in r.ops
    ensures e.key in s.ops && Execute(e, server).Some? ==>
      e.key in r.ops && r.ops[e.key] == Errored(s.ops[e.key], Execute(e, server).value, now)
    ensures Valid(s) ==> Valid(r)
    ensures r.cached == s.cached && r.photos == s.photos
  {
    var marked := MarkOperationProcessing(s, e.key);
    match Execute(e, server)
    case None => RemovePendingOperation(marked, e.key)
    case Some(m) => UpdateOperationStatus(marked, e.key, "error", Str(m), now)
  }

  /** The store after the loop from position `i` on, each operation run on the store the one before left. */
  function RunStore(s: Store, es: seq<Entry>, server: nat -> Option<string>, i: nat, now: int): (r: Store)
    requires i <= |es|
    ensures Valid(s) ==> Valid(r)
    ensures r.cached == s.cached && r.photos == s.photos
    decreases |es| - i
  {
    if i == |es| then s else RunStore(Step(s, es[i], server, now), es, server, i + 1, now)
  }

  /**
    The counts of the loop from position `i` on: every operation is counted
    once, as a success or a failure, and a failure does not stop the loop.
  */
  function Count(es: seq<Entry>, server: nat -> Option<string>, i: nat): (t: Tally)
    requires i <= |es|
    ensures t.success + t.failed == |es| - i
    ensures t.failed > 0 <==> exists j :: i <= j < |es| && Execute(es[j], server).Some?
    ensures t.success > 0 <==> exists j :: i <= j < |es| && Execute(es[j], server).None?
    decreases |es| - i
  {
    if i == |es| then Tally(0, 0)
    else
      var rest := Count(es, server, i + 1);
      if Execute(es[i], server).None? then rest.(success := rest.success + 1)
      else rest.(failed := rest.failed + 1)
  }

  /** An operation the loop from `i` on does not run is left as it was. */
  lemma {:induction false} RunKeepsOthers(s: Store, es: seq<Entry>, server: nat -> Option<string>, i: nat, now: int, k: nat)
    requires i <= |es|
    requires forall j :: i <= j < |es| ==> es[j].key != k
    ensures k in RunStore(s, es, server, i, now).ops <==> k in s.ops
    ensures k in s.ops ==> RunStore(s, es, server, i, now).ops[k] == s.ops[k]
    decreases |es| - i
  {
    if i < |es| {
      RunKeepsOthers(Step(s, es[i], server, now), es, server, i + 1, now, k);
    }
  }

  /** No two operations of the loop share a key. */
  predicate DistinctKeys(es: seq<Entry>) {
    forall i, j :: 0 <= i < j < |es| ==> es[i].key != es[j].key
  }

  /** The stored operation after a failed attempt with message `m`. */
  function Errored(op: StoredOp, m: string, now: int): StoredOp {
    op.(status := "error", error := Str(m), lastAttempt := Some(now))
  }

  /** No other operation of the loop shares the key of the one at `j`. */
  predicate KeyUnique(es: seq<Entry>, j: nat)
    requires j < |es|
  {
    forall m :: 0 <= m < |es| && m != j ==> es[m].key != es[j].key
  }

  /**
    What the loop from `i` on leaves of the operation at `j`: removed when it
    succeeds, marked 'error' with the message when it fails, whatever the
    operations before it did.
  */
  lemma {:induction false} RunKeyOutcome(s: Store, es: seq<Entry>, server: nat -> Option<string>, i: nat, now: int, j: nat)
    requires i <= j < |es| && KeyUnique(es, j) && es[j].key in s.ops
    ensures Execute(es[j], server).None? ==> es[j].key !in RunStore(s, es, server, i, now).ops
    ensures Execute(es[j], server).Some? ==>
      && es[j].key in RunStore(s, es, server, i, now).ops
      && RunStore(s, es, server, i, now).ops[es[j].key] == Errored(s.ops[es[j].key], Execute(es[j], server).value, now)
    decreases j - i
  {
    if i == j {
      RunKeyAtStart(s, es, server, i, now);
    } else {
      RunKeyOutcome(Step(s, es[i], server, now), es, server, i + 1, now, j);
    }
  }

  /** The operation the loop runs first is removed or marked, and the later operations leave it alone. */
  lemma RunKeyAtStart(s: Store, es: seq<Entry>, server: nat -> Option<string>, i: nat, now: int)
    requires i < |es| && KeyUnique(es, i) && es[i].key in s.ops
    ensures Execute(es[i], server).None? ==> es[i].key !in RunStore(s, es, server, i, now).ops
    ensures Execute(es[i], server).Some? ==>
      && es[i].key in RunStore(s, es, server, i, now).ops
      && RunStore(s, es, server, i, now).ops[es[i].key] == Errored(s.ops[es[i].key], Execute(es[i], server).value, now)
  {
    RunKeepsOthers(Step(s, es[i], server, now), es, server, i + 1, now, es[i].key);
  }

  /** `syncOfflinePhotos`: a photo leaves the store unless it needed an upload and the upload failed. */
  function SyncPhotos(photos: map<nat, Photo>, upload: nat -> bool): (r: map<nat, Photo>)
    ensures forall k :: k in r <==> k in photos && photos[k].needsUpload && photos[k].hasBlob && !upload(k)
    ensures forall k :: k in r ==> r[k] == photos[k]
  {
    map k | k in photos && photos[k].needsUpload && photos[k].hasBlob && !upload(k) :: photos[k]
  }

  /** The hook's state that the drain reads and writes. */
  datatype Flags = Flags(inProgress: bool, syncing: bool, lastSyncError: Option<string>)

  /** The store, the flags and whether the query caches were invalidated. */
  datatype Drained = Drained(store: Store, flags: Flags, invalidated: bool)

  /** The message shown when some operations failed. */
  function FailureMessage(failed: nat): string {
    IntToString(failed) + " operação(ões) falharam"
  }

  /** The operations the drain takes, in the order it runs them. */
  function DrainOrder(s: Store): (es: seq<Entry>)
    requires Valid(s)
  {
    SortByPriority(PendingOnly(GetPendingOperations(s)))
  }

  /** The operation under `k` is pending. */
  predicate IsPending(s: Store, k: nat) {
    k in s.ops && s.ops[k].status == PendingStatus
  }

  /**
    syncPendingOperations: nothing at all when a drain is in progress or the
    browser is offline. Otherwise the error is cleared, the pending
    operations are run in drain order and the photos synced; the caches are
    invalidated when an operation succeeded, the error names the failures
    when one failed, and the in-progress flags are cleared in every case.
    With nothing pending it returns straight away.
  */
  function SyncPendingOperations(s: Store, flags: Flags, online: bool, server: nat -> Option<string>,
                                 upload: nat -> bool, now: int): (d: Drained)
    requires Valid(s)
    ensures flags.inProgress || !online ==> d == Drained(s, flags, false)
    ensures !(flags.inProgress || !online) ==> Valid(d.store) && !d.flags.inProgress && !d.flags.syncing && d.store.cached == s.cached
  {
    if flags.inProgress || !online then Drained(s, flags, false)
    else
      var order := DrainOrder(s);
      if order == [] then
        Drained(s, Flags(false, false, None), false)
      else
        var after := RunStore(s, order, server, 0, now);
        var tally := Count(order, server, 0);
        Drained(after.(photos := SyncPhotos(after.photos, upload)),
                Flags(false, false, if tally.failed > 0 then Some(FailureMessage(tally.failed)) else None),
                tally.success > 0)
  }

  /** Some pending operation's execution fails (`fails`) or succeeds (`!fails`). */
  ghost predicate SomePending(s: Store, server: nat -> Option<string>, fails: bool) {
    exists k :: IsPending(s, k) && Execute(Entry(k, s.ops[k]), server).Some? == fails
  }

  /** Looking for an outcome along a list of exactly the pending operations is looking among the pending operations. */
  lemma SomeInOrder(s: Store, es: seq<Entry>, server: nat -> Option<string>, fails: bool)
    requires forall e :: e in es ==> IsPending(s, e.key) && e.op == s.ops[e.key]
    requires forall k :: IsPending(s, k) ==> Entry(k, s.ops[k]) in es
    ensures (exists j :: 0 <= j < |es| && Execute(es[j], server).Some? == fails) <==> SomePending(s, server, fails)
  {
    if j :| 0 <= j < |es| && Execute(es[j], server).Some? == fails {
      var e := es[j];
      assert e in es;
      assert e == Entry(e.key, s.ops[e.key]);
    }
    if SomePending(s, server, fails) {
      var k :| IsPending(s, k) && Execute(Entry(k, s.ops[k]), server).Some? == fails;
      assert Entry(k, s.ops[k]) in es;
    }
  }

  /** Looking for an outcome along the drain order is looking among the pending operations. */
  lemma DrainOrderSome(s: Store, server: nat -> Option<string>, fails: bool)
    requires Valid(s)
    ensures (exists j :: 0 <= j < |DrainOrder(s)| && Execute(DrainOrder(s)[j], server).Some? == fails)
        <==> SomePending(s, server, fails)
  {
    DrainOrderMembers(s);
    SomeInOrder(s, DrainOrder(s), server, fails);
  }

  /** The flags a drain leaves are those the counts of its loop give. */
  lemma DrainTally(s: Store, flags: Flags, server: nat -> Option<string>, upload: nat -> bool, now: int)
    requires Valid(s) && !flags.inProgress
    ensures var t := Count(DrainOrder(s), server, 0);
      && SyncPendingOperations(s, flags, true, server, upload, now).flags.lastSyncError
         == (if t.failed > 0 then Some(FailureMessage(t.failed)) else None)
      && SyncPendingOperations(s, flags, true, server, upload, now).invalidated == (t.success > 0)
  {
  }

  /**
    After a drain, the error is set exactly when some pending operation
    failed, and then it gives the number of failures.
  */
  lemma DrainErrorFlag(s: Store, flags: Flags, server: nat -> Option<string>, upload: nat -> bool, now: int)
    requires Valid(s) && !flags.inProgress
    ensures SyncPendingOperations(s, flags, true, server, upload, now).flags.lastSyncError.Some? <==> SomePending(s, server, true)
    ensures SomePending(s, server, true) ==>
      SyncPendingOperations(s, flags, true, server, upload, now).flags.lastSyncError
      == Some(FailureMessage(Count(DrainOrder(s), server, 0).failed))
  {
    DrainTally(s, flags, server, upload, now);
    DrainOrderSome(s, server, true);
  }

  /** After a drain, the query caches are invalidated exactly when some pending operation succeeded. */
  lemma DrainInvalidates(s: Store, flags: Flags, server: nat -> Option<string>, upload: nat -> bool, now: int)
    requires Valid(s) && !flags.inProgress
    ensures SyncPendingOperations(s, flags, true, server, upload, now).invalidated <==> SomePending(s, server, false)
  {
    DrainTally(s, flags, server, upload, now);
    DrainOrderSome(s, server, false);
  }

  /** The drain takes exactly the pending operations, each under its key. */
  lemma DrainOrderMembers(s: Store)
    requires Valid(s)
    ensures forall e :: e in DrainOrder(s) ==> IsPending(s, e.key) && e.op == s.ops[e.key]
    ensures forall k :: IsPending(s, k) ==> Entry(k, s.ops[k]) in DrainOrder(s)
    ensures forall j :: 0 <= j < |DrainOrder(s)| ==> IsPending(s, DrainOrder(s)[j].key)
  {
    var order := DrainOrder(s);
    forall e | e in order ensures IsPending(s, e.key) && e.op == s.ops[e.key] {
      assert e in multiset(order);
    }
    forall k | IsPending(s, k) ensures Entry(k, s.ops[k]) in order {
      assert Entry(k, s.ops[k]) in multiset(PendingOnly(GetPendingOperations(s)));
    }
    forall j | 0 <= j < |order| ensures IsPending(s, order[j].key) {
      assert order[j] in order;
    }
  }

  /** The drain order runs higher priorities first, ties in key order, each key once. */
  lemma DrainOrderOrdered(s: Store)
    requires Valid(s)
    ensures Ordered(DrainOrder(s)) && DistinctKeys(DrainOrder(s))
  {
    SortOrdered(PendingOnly(GetPendingOperations(s)));
    var order := DrainOrder(s);
    DrainOrderMembers(s);
    forall i, j | 0 <= i < j < |order| ensures order[i].key != order[j].key {
      assert Before(order[i], order[j]);
      assert order[i] in order && order[j] in order;
    }
  }

  /**
    Every pending operation is attempted: one that succeeds leaves the
    store, one that fails stays, marked 'error' with the message and the
    time of the attempt, its other fields as they were.
  */
  lemma DrainKeyOutcome(s: Store, flags: Flags, server: nat -> Option<string>, upload: nat -> bool, now: int, k: nat)
    requires Valid(s) && !flags.inProgress && IsPending(s, k)
    ensures Execute(Entry(k, s.ops[k]), server).None? ==> k !in SyncPendingOperations(s, flags, true, server, upload, now).store.ops
    ensures Execute(Entry(k, s.ops[k]), server).Some? ==>
      && k in SyncPendingOperations(s, flags, true, server, upload, now).store.ops
      && SyncPendingOperations(s, flags, true, server, upload, now).store.ops[k]
         == Errored(s.ops[k], Execute(Entry(k, s.ops[k]), server).value, now)
  {
    var order := DrainOrder(s);
    DrainOrderMembers(s);
    DrainOrderOrdered(s);
    assert Entry(k, s.ops[k]) in order;
    var j :| 0 <= j < |order| && order[j] == Entry(k, s.ops[k]);
    RunKeyOutcome(s, order, server, 0, now, j);
  }

  /** An operation that is not pending, such as one that failed before, is not run: the drain leaves it as it was. */
  lemma DrainSkipsNonPending(s: Store, flags: Flags, online: bool, server: nat -> Option<string>, upload: nat -> bool, now: int, k: nat)
    requires Valid(s) && k in s.ops && s.ops[k].status != PendingStatus
    ensures k in SyncPendingOperations(s, flags, online, server, upload, now).store.ops
    ensures SyncPendingOperations(s, flags, online, server, upload, now).store.ops[k] == s.ops[k]
  {
    if !(flags.inProgress || !online) {
      var order := DrainOrder(s);
      DrainOrderMembers(s);
      RunKeepsOthers(s, order, server, 0, now, k);
    }
  }

  /**
    A failed operation is not picked up again: the next drain, whatever the
    server answers then, leaves it marked 'error'.
  */
  lemma FailedNotRetried(s: Store, flags: Flags, server: nat -> Option<string>, upload: nat -> bool, now: int, k: nat,
                         server2: nat -> Option<string>, upload2: nat -> bool, later: int)
    requires Valid(s) && !flags.inProgress && IsPending(s, k) && Execute(Entry(k, s.ops[k]), server).Some?
    ensures
      var first := SyncPendingOperations(s, flags, true, server, upload, now);
      var second := SyncPendingOperations(first.store, first.flags, true, server2, upload2, later);
      k in second.store.ops && second.store.ops[k] == Errored(s.ops[k], Execute(Entry(k, s.ops[k]), server).value, now)
  {
    var first := SyncPendingOperations(s, flags, true, server, upload, now);
    DrainKeyOutcome(s, flags, server, upload, now, k);
    DrainSkipsNonPending(first.store, first.flags, true, server2, upload2, later, k);
  }
}
