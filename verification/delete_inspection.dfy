/**
  Deleting an inspection (functions/deletarFiscalizacao.ts). Only a signed-in
  administrator or the inspection's creator may delete it. The handler
  gathers the inspection's units (at most 500) and, per unit, its answers,
  NCs, determinations, recommendations and manual findings (at most 500 of
  each per unit), plus the inspection's photos (at most 500). It deletes them
  one at a time in a fixed order of kinds, skipping a delete that fails, then
  deletes the inspection itself.

  The store is one list of records in the order the queries return them; the
  server's answer to each delete is a parameter: `None` for success, or the
  error's message.
*/
module DeleteInspection {
  import opened Wrappers

  /** The signed-in user; a missing e-mail is `None`. */
  datatype User = User(role: string, email: Option<string>)

  /** The entities the handler touches. */
  datatype Kind =
    | RespostaChecklist
    | Determinacao
    | Recomendacao
    | NaoConformidade
    | ConstatacaoManual
    | FotoEvidencia
    | UnidadeFiscalizada
    | Fiscalizacao

  /** A stored record: its kind, its id, the links the handler filters on, and its creator. */
  datatype Rec = Rec(kind: Kind, id: string, fiscalizacaoId: string, unidadeId: string, createdBy: Option<string>)

  /** One delete: `entities[kind].delete(id)`. */
  datatype Call = Call(kind: Kind, id: string)

  function CallOf(r: Rec): Call {
    Call(r.kind, r.id)
  }

  /** The field a query filters on. */
  datatype Link = ById | ByInspection | ByUnit

  predicate Linked(r: Rec, link: Link, id: string) {
    match link
    case ById => r.id == id
    case ByInspection => r.fiscalizacaoId == id
    case ByUnit => r.unidadeId == id
  }

  /** The records of a kind whose linked field holds `id`, in store order. */
  function Matching(db: seq<Rec>, kind: Kind, link: Link, id: string): (r: seq<Rec>)
    ensures forall x :: x in r <==> x in db && x.kind == kind && Linked(x, link, id)
  {
    if db == [] then []
    else
      var rest := Matching(db[1..], kind, link, id);
      assert forall x :: x in db <==> x == db[0] || x in db[1..];
      if db[0].kind == kind && Linked(db[0], link, id) then [db[0]] + rest else rest
  }

  /** The page size every related-record query asks for. */
  const Limit: nat := 500

  /** At most the first `n` elements. */
  function Take<T>(s: seq<T>, n: nat): (r: seq<T>)
    ensures |r| <= n && forall x :: x in r ==> x in s
    ensures |s| <= n ==> r == s
  {
    if |s| <= n then s else s[..n]
  }

  /** `entities[kind].filter({ field: id }, sort, 500)` */
  function Found(db: seq<Rec>, kind: Kind, link: Link, id: string): (r: seq<Rec>)
    ensures |r| <= Limit
    ensures forall x :: x in r ==> x in db && x.kind == kind && Linked(x, link, id)
  {
    Take(Matching(db, kind, link, id), Limit)
  }

  /** One query per unit, the results flattened in unit order. */
  function PerUnit(db: seq<Rec>, kind: Kind, units: seq<Rec>): (r: seq<Rec>)
    ensures forall x :: x in r ==> x in db && x.kind == kind && exists u :: u in units && x.unidadeId == u.id
    ensures forall u, x :: u in units && x in Found(db, kind, ByUnit, u.id) ==> x in r
  {
    if units == [] then []
    else
      var rest := PerUnit(db, kind, units[1..]);
      assert forall u :: u in units <==> u == units[0] || u in units[1..];
      Found(db, kind, ByUnit, units[0].id) + rest
  }

  /** The order in which the handler deletes the kinds. */
  const DeletionOrder: seq<Kind> :=
    [RespostaChecklist, Determinacao, Recomendacao, NaoConformidade, ConstatacaoManual, FotoEvidencia, UnidadeFiscalizada]

  /** A kind's position in the deletion order; the inspection itself comes last. */
  function Rank(k: Kind): nat {
    match k
    case RespostaChecklist => 0
    case Determinacao => 1
    case Recomendacao => 2
    case NaoConformidade => 3
    case ConstatacaoManual => 4
    case FotoEvidencia => 5
    case UnidadeFiscalizada => 6
    case Fiscalizacao => 7
  }

  /** The records of one kind the handler deletes: photos by inspection, units as found, the rest per unit. */
  function Batch(db: seq<Rec>, fid: string, units: seq<Rec>, kind: Kind): (r: seq<Rec>)
    requires forall u :: u in units ==> u.kind == UnidadeFiscalizada
    ensures forall x :: x in r ==> x.kind == kind
  {
    if kind == FotoEvidencia then Found(db, FotoEvidencia, ByInspection, fid)
    else if kind == UnidadeFiscalizada then units
    else PerUnit(db, kind, units)
  }

  /** The deletes of one kind, one per record, in order. */
  function CallsOf(rs: seq<Rec>): (r: seq<Call>)
    ensures |r| == |rs| && forall i :: 0 <= i < |rs| ==> r[i] == CallOf(rs[i])
  {
    if rs == [] then [] else [CallOf(rs[0])] + CallsOf(rs[1..])
  }

  /** The batches of the given kinds, one after the other. */
  function Batches(db: seq<Rec>, fid: string, units: seq<Rec>, kinds: seq<Kind>): (r: seq<Call>)
    requires forall u :: u in units ==> u.kind == UnidadeFiscalizada
    requires forall a, b :: 0 <= a < b < |kinds| ==> Rank(kinds[a]) < Rank(kinds[b])
    ensures forall i :: 0 <= i < |r| ==> r[i].kind in kinds
    ensures forall a, b :: 0 <= a < b < |r| ==> Rank(r[a].kind) <= Rank(r[b].kind)
  {
    if kinds == [] then []
    else
      var first := CallsOf(Batch(db, fid, units, kinds[0]));
      var rest := Batches(db, fid, units, kinds[1..]);
      assert forall i :: 0 <= i < |first| ==> first[i].kind == kinds[0] by {
        forall i | 0 <= i < |first| ensures first[i].kind == kinds[0] {
          assert Batch(db, fid, units, kinds[0])[i] in Batch(db, fid, units, kinds[0]);
        }
      }
      forall i | 0 <= i < |rest| ensures Rank(kinds[0]) < Rank(rest[i].kind) {
        var k :| 0 <= k < |kinds[1..]| && kinds[1..][k] == rest[i].kind;
        assert kinds[k + 1] == rest[i].kind;
      }
      first + rest
  }

  /** Each kind's rank is its position in the deletion order. */
  lemma DeletionOrderRanked()
    ensures forall i :: 0 <= i < |DeletionOrder| ==> Rank(DeletionOrder[i]) == i
    ensures forall a, b :: 0 <= a < b < |DeletionOrder| ==> Rank(DeletionOrder[a]) < Rank(DeletionOrder[b])
    ensures Fiscalizacao !in DeletionOrder
  {
  }

  /** Every delete the handler issues before the inspection's own, in order; nothing when the inspection has no unit. */
  function Deletions(db: seq<Rec>, fid: string): (r: seq<Call>)
    ensures forall a, b :: 0 <= a < b < |r| ==> Rank(r[a].kind) <= Rank(r[b].kind)
    ensures forall i :: 0 <= i < |r| ==> r[i].kind in DeletionOrder
  {
    var units := Found(db, UnidadeFiscalizada, ByInspection, fid);
    DeletionOrderRanked();
    if units == [] then [] else Batches(db, fid, units, DeletionOrder)
  }

  /** All the deletes, the inspection's own last. */
  function Attempts(db: seq<Rec>, fid: string): seq<Call> {
    Deletions(db, fid) + [Call(Fiscalizacao, fid)]
  }

  /** The records left once the given deletes have succeeded. */
  function Without(db: seq<Rec>, done: seq<Call>): (r: seq<Rec>)
    ensures forall x :: x in r <==> x in db && CallOf(x) !in done
  {
    if db == [] then []
    else
      var rest := Without(db[1..], done);
      assert forall x :: x in db <==> x == db[0] || x in db[1..];
      if CallOf(db[0]) in done then rest else [db[0]] + rest
  }

  /** The deletes the server carried out; the others were logged and skipped. */
  function Succeeded(calls: seq<Call>, server: Call -> Option<string>): (r: seq<Call>)
    ensures forall c :: c in r <==> c in calls && server(c).None?
  {
    if calls == [] then []
    else
      var rest := Succeeded(calls[1..], server);
      assert forall c :: c in calls <==> c == calls[0] || c in calls[1..];
      if server(calls[0]).None? then [calls[0]] + rest else rest
  }

  /** The response body. */
  datatype Body = Failure(error: string) | Success(message: string)

  /** The status, the body, every delete attempted in order, and the records left. */
  datatype Outcome = Outcome(status: nat, body: Body, calls: seq<Call>, after: seq<Rec>)

  /** `!fiscalizacao_id`: missing or empty. */
  predicate Given(fid: Option<string>) {
    fid.Some? && fid.value != ""
  }

  /** Allowed to delete: an administrator, or the user whose e-mail is the inspection's creator. */
  predicate MayDelete(user: User, inspection: Rec) {
    user.role == "admin" || inspection.createdBy == user.email
  }

  /**
    The handler: 401 without a user, 400 without an id, 404 for an unknown
    inspection, 403 for anyone but an administrator or the creator, each
    before any delete. Otherwise the related records are deleted, failures
    skipped, and the inspection deleted last; a failure there is a 500.
  */
  function DeletarFiscalizacao(user: Option<User>, fid: Option<string>, db: seq<Rec>, server: Call -> Option<string>): (o: Outcome)
    ensures o.status == 401 <==> user.None?
    ensures o.status == 400 <==> user.Some? && !Given(fid)
    ensures o.status == 404 <==> user.Some? && Given(fid) && Matching(db, Fiscalizacao, ById, fid.value) == []
    ensures o.status == 403 <==> user.Some? && Given(fid) && Matching(db, Fiscalizacao, ById, fid.value) != []
                                 && !MayDelete(user.value, Matching(db, Fiscalizacao, ById, fid.value)[0])
    ensures o.status !in {200, 500} ==> o.calls == [] && o.after == db && o.body.Failure?
    ensures o.status in {200, 500} ==> Given(fid) && o.calls == Attempts(db, fid.value)
    ensures o.status in {200, 500} ==> (o.status == 500 <==> server(Call(Fiscalizacao, fid.value)).Some?)
    ensures o.status in {200, 500} ==>
      forall x :: x in o.after <==> x in db && !(CallOf(x) in o.calls && server(CallOf(x)).None?)
  {
    if user.None? then Outcome(401, Failure("Unauthorized"), [], db)
    else if !Given(fid) then Outcome(400, Failure("fiscalizacao_id é obrigatório"), [], db)
    else
      var id := fid.value;
      var found := Matching(db, Fiscalizacao, ById, id);
      if found == [] then Outcome(404, Failure("Fiscalização não encontrada"), [], db)
      else if !MayDelete(user.value, found[0]) then
        Outcome(403, Failure("Apenas o criador ou administrador pode deletar esta fiscalização"), [], db)
      else
        var calls := Attempts(db, id);
        var after := Without(db, Succeeded(calls, server));
        match server(Call(Fiscalizacao, id))
        case Some(m) => Outcome(500, Failure(m), calls, after)
        case None => Outcome(200, Success("Fiscalização deletada com sucesso"), calls, after)
  }

  /**
    The deletes run kind by kind: answers, determinations, recommendations,
    NCs, manual findings, photos, units, and the inspection itself last.
  */
  lemma AttemptsOrdered(db: seq<Rec>, fid: string)
    ensures var calls := Attempts(db, fid);
      && calls[|calls| - 1] == Call(Fiscalizacao, fid)
      && (forall a, b :: 0 <= a < b < |calls| ==> Rank(calls[a].kind) <= Rank(calls[b].kind))
      && (forall i :: 0 <= i < |calls| - 1 ==> calls[i].kind != Fiscalizacao)
  {
    DeletionOrderRanked();
    var d := Deletions(db, fid);
    forall i | 0 <= i < |d| ensures Rank(d[i].kind) < Rank(Fiscalizacao) && d[i].kind != Fiscalizacao {
      assert d[i].kind in DeletionOrder;
    }
  }

  /** An inspection without units: the only delete is the inspection's own. */
  lemma NoUnitsOnlyInspection(user: User, fid: string, db: seq<Rec>, server: Call -> Option<string>)
    requires fid != "" && Matching(db, Fiscalizacao, ById, fid) != []
    requires MayDelete(user, Matching(db, Fiscalizacao, ById, fid)[0])
    requires forall x :: x in db ==> !(x.kind == UnidadeFiscalizada && x.fiscalizacaoId == fid)
    ensures DeletarFiscalizacao(Some(user), Some(fid), db, server).calls == [Call(Fiscalizacao, fid)]
  {
    var o := DeletarFiscalizacao(Some(user), Some(fid), db, server);
    assert o.status in {200, 500};
    var m := Matching(db, UnidadeFiscalizada, ByInspection, fid);
    assert forall x :: x !in m;
    assert Deletions(db, fid) == [];
  }

  /**
    A failed delete never stops the handler: whatever the server answers,
    the same deletes are attempted in the same order.
  */
  lemma FailuresDoNotStop(user: Option<User>, fid: Option<string>, db: seq<Rec>,
                          server1: Call -> Option<string>, server2: Call -> Option<string>)
    ensures DeletarFiscalizacao(user, fid, db, server1).calls == DeletarFiscalizacao(user, fid, db, server2).calls
  {
  }

  /**
    Every record the queries find is attempted: when the inspection has
    units, each of them, each of their first 500 answers, determinations,
    recommendations, NCs and manual findings, and each of the inspection's
    first 500 photos. (Without units, nothing but the inspection is deleted.)
  */
  lemma FoundRecordsAttempted(db: seq<Rec>, fid: string, k: Kind, x: Rec)
    requires Found(db, UnidadeFiscalizada, ByInspection, fid) != []
    requires k in DeletionOrder
    requires x in Batch(db, fid, Found(db, UnidadeFiscalizada, ByInspection, fid), k)
    ensures CallOf(x) in Attempts(db, fid)
  {
    var units := Found(db, UnidadeFiscalizada, ByInspection, fid);
    DeletionOrderRanked();
    BatchesCover(db, fid, units, DeletionOrder, k, x);
  }

  /** A record in the batch of one of the kinds is in the deletes of those kinds. */
  lemma {:induction false} BatchesCover(db: seq<Rec>, fid: string, units: seq<Rec>, kinds: seq<Kind>, k: Kind, x: Rec)
    requires forall u :: u in units ==> u.kind == UnidadeFiscalizada
    requires forall a, b :: 0 <= a < b < |kinds| ==> Rank(kinds[a]) < Rank(kinds[b])
    requires k in kinds && x in Batch(db, fid, units, k)
    ensures CallOf(x) in Batches(db, fid, units, kinds)
    decreases |kinds|
  {
    var first := Batch(db, fid, units, kinds[0]);
    if kinds[0] == k {
      var i :| 0 <= i < |first| && first[i] == x;
      assert CallsOf(first)[i] == CallOf(x);
    } else {
      BatchesCover(db, fid, units, kinds[1..], k, x);
    }
  }
}
