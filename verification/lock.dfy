/**
  The finalised-inspection lock (src/components/utils/fiscalizacaoLock.jsx):
  every mutation of an inspection's data first checks that the inspection is
  not 'finalizada'.
*/
module FiscalizacaoLock {
  import opened Wrappers
  import opened Text
  import opened Entities

  const LockedMessage: string :=
    "Não é possível modificar uma fiscalização finalizada. Todos os dados estão bloqueados para manter a integridade do processo."

  predicate IsFinalized(f: Option<Inspection>) {
    f.Some? && f.value.status == Finalizada
  }

  /** checkFiscalizacaoFinalizedDirect: `Ok` is a normal return, `Err` the thrown error. */
  function CheckDirect(f: Option<Inspection>): (r: Result<(), string>)
    ensures r.Err? <==> f.Some? && f.value.status == Finalizada
    ensures r.Err? ==> r.error == LockedMessage
  {
    if IsFinalized(f) then Err(LockedMessage) else Ok(())
  }

  /** `Fiscalizacao.filter({ id })[0]`: the first stored inspection with that id. */
  function FirstWithId(table: seq<Inspection>, id: string): (f: Option<Inspection>)
    ensures f.Some? ==> f.value in table && f.value.id == id
    ensures f.None? ==> forall g :: g in table ==> g.id != id
  {
    if table == [] then None
    else if table[0].id == id then Some(table[0])
    else FirstWithId(table[1..], id)
  }

  /** The outcome of checkFiscalizacaoFinalized: whether it queried the store, and what it did. */
  datatype LockCheck = LockCheck(queried: bool, result: Result<(), string>)

  /**
    checkFiscalizacaoFinalized: a falsy id passes without a query; otherwise
    the inspection is read again and the check fails iff the first match is
    finalised.
  */
  function Check(id: Option<string>, table: seq<Inspection>): (r: LockCheck)
    ensures !Truthy(id) ==> r == LockCheck(false, Ok(()))
    ensures Truthy(id) ==> r.queried
    ensures r.result.Err? <==> Truthy(id) && IsFinalized(FirstWithId(table, id.value))
  {
    if !Truthy(id) then LockCheck(false, Ok(()))
    else LockCheck(true, CheckDirect(FirstWithId(table, id.value)))
  }

  /** With a truthy id the store-reading check agrees with the direct check on the first match. */
  lemma CheckAgreesWithDirect(id: string, table: seq<Inspection>)
    requires id != []
    ensures Check(Some(id), table).result == CheckDirect(FirstWithId(table, id))
  {
  }

  /** No stored inspection with the id: the check passes. */
  lemma UnknownIdPasses(id: Option<string>, table: seq<Inspection>)
    requires forall g :: g in table ==> id.None? || g.id != id.value
    ensures Check(id, table).result.Ok?
  {
  }

  /** A missing inspection never blocks the direct check. */
  lemma MissingInspectionPasses()
    ensures CheckDirect(None).Ok?
  {
  }
}
