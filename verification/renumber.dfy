/**
  functions/renumerarConstatacoes.ts: renumber one unit from scratch. The
  handler deletes the NCs that came from checklist answers (their
  determinations first) and the checklist recommendations. It numbers the
  qualifying answers C1, C2, … and the manual findings after them, and
  recreates one NC and one determination, and possibly a recommendation, per
  NAO answer on a `gera_nc` item. It then renumbers the NCs and first
  determinations of the manual findings and the manual recommendations.

  Remote queries are inputs, in the order the store returns them. The ids
  the store gives the records created here are inputs too (`newNcIds`,
  `newDetIds`), and running out of them is a failed create. Any other call
  may throw: `fault` counts the writes done before it does, and those writes
  stay.
*/
module Renumber {
  import opened Wrappers
  import opened Text
  import opened Entities
  import opened Phrasing

  /** The limits of the queries: answers by `created_date`, items and findings by `ordem`, manual recommendations by `created_date`. */
  const AnswerLimit: nat := 200
  const ItemLimit: nat := 100
  const FindingLimit: nat := 100
  const ManualRecLimit: nat := 100

  /** Every recreated determination has a 30-day deadline. */
  const DetPrazo: int := 30

  // ----- the loop over answers -----

  /** An answer gets a constatação number: SIM or NAO, and its item has a non-blank template for that answer. */
  predicate Numbered(a: ChecklistAnswer, item: Option<ChecklistItem>) {
    item.Some? &&
    ((a.resposta == Sim && HasText(item.value.textoSim)) || (a.resposta == Nao && HasText(item.value.textoNao)))
  }

  /** What the loop reads from one answer and the first item with its `item_checklist_id`. */
  datatype AnswerStep = AnswerStep(
    id: string,
    numbered: bool,
    makesNc: bool,                 // numbered, NAO, and the item has gera_nc
    textoNc: Option<string>,
    artigo: Option<string>,
    textoDet: Option<string>,
    textoRec: Option<string>)

  function StepOf(a: ChecklistAnswer, items: seq<ChecklistItem>): (s: AnswerStep)
    ensures s.id == a.id
    ensures s.numbered ==> a.resposta != Na && exists it :: it in items && it.id == a.itemId
    ensures s.makesNc ==> s.numbered && a.resposta == Nao && exists it :: it in items && it.id == a.itemId && it.geraNc
  {
    var item := Find(items, (it: ChecklistItem) => it.id == a.itemId);
    match item
    case None => AnswerStep(a.id, false, false, None, None, None, None)
    case Some(it) =>
      assert it in items && it.id == a.itemId;
      var numbered := Numbered(a, item);
      AnswerStep(a.id, numbered, numbered && it.geraNc && a.resposta == Nao, it.textoNc, it.artigo, it.textoDet, it.textoRec)
  }

  function StepsOf(answers: seq<ChecklistAnswer>, items: seq<ChecklistItem>): (ss: seq<AnswerStep>)
    ensures |ss| == |answers|
  {
    seq(|answers|, k requires 0 <= k < |answers| => StepOf(answers[k], items))
  }

  /** `{ id, numero_constatacao: C{cNo} }` in `respostasParaAtualizar`. */
  datatype AnswerNumber = AnswerNumber(id: string, cNo: int)

  /** The answer updates of the loop from index `i` on, `contadorC` being `c` on entry. */
  function UpdatesFrom(ss: seq<AnswerStep>, i: nat, c: int): (us: seq<AnswerNumber>)
    requires i <= |ss|
    ensures |us| <= |ss| - i
    ensures forall k :: 0 <= k < |us| ==> us[k].cNo == c + k
    decreases |ss| - i
  {
    if i == |ss| then []
    else if ss[i].numbered then [AnswerNumber(ss[i].id, c)] + UpdatesFrom(ss, i + 1, c + 1)
    else UpdatesFrom(ss, i + 1, c)
  }

  /**
    An entry of `ncsParaCriar` together with the determination planned with
    it. Numbers are kept as the integers they print.
  */
  datatype NcDraft = NcDraft(respostaId: string, cNo: int, ncNo: int, dNo: int,
                             textoNc: Option<string>, artigo: Option<string>, textoDet: Option<string>)
  {
    function numero(): string { Label("NC", ncNo) }

    /** `temp_nc_{contadorNC}`, the key of the NC in the id map. */
    function tempId(): string { Label("temp_nc_", ncNo) }

    /** `texto_nc` when non-blank, else the sentence naming the constatação and the article. */
    function descricao(): string {
      if HasText(textoNc) then textoNc.value else NcSentenceLower(Label("C", cNo), OrElse(artigo, UnspecifiedArtigo))
    }

    function artigoPortaria(): string { OrElse(artigo, "") }

    function detNumero(): string { Label("D", dNo) }

    /** "Para sanar a {NC} {texto or default}. Prazo: 30 dias." */
    function detDescricao(): string { DetSentenceWithPrazo(numero(), OrElse(textoDet, DefaultDetText)) }
  }

  /** The NC drafts of the loop from index `i` on, with `contadorC`, `contadorNC` and `contadorD` on entry. */
  function NcsFrom(ss: seq<AnswerStep>, i: nat, c: int, n: int, d: int): (ds: seq<NcDraft>)
    requires i <= |ss|
    ensures |ds| <= |ss| - i
    ensures forall k :: 0 <= k < |ds| ==> ds[k].ncNo == n + k && ds[k].dNo == d + k
    decreases |ss| - i
  {
    if i == |ss| then []
    else if !ss[i].numbered then NcsFrom(ss, i + 1, c, n, d)
    else if ss[i].makesNc then
      [NcDraft(ss[i].id, c, n, d, ss[i].textoNc, ss[i].artigo, ss[i].textoDet)] + NcsFrom(ss, i + 1, c + 1, n + 1, d + 1)
    else NcsFrom(ss, i + 1, c + 1, n, d)
  }

  /** An entry of `recomendacoesParaCriar`, origin 'checklist'. */
  datatype RecDraft = RecDraft(rNo: int, descricao: string)
  {
    function numero(): string { Label("R", rNo) }
  }

  /** The recommendation drafts of the loop from index `i` on, `contadorR` being `r` on entry. */
  function RecsFrom(ss: seq<AnswerStep>, i: nat, r: int): (rs: seq<RecDraft>)
    requires i <= |ss|
    ensures |rs| <= |ss| - i
    ensures forall k :: 0 <= k < |rs| ==> rs[k].rNo == r + k
    decreases |ss| - i
  {
    if i == |ss| then []
    else if ss[i].numbered && ss[i].makesNc && Truthy(ss[i].textoRec) then [RecDraft(r, ss[i].textoRec.value)] + RecsFrom(ss, i + 1, r + 1)
    else RecsFrom(ss, i + 1, r)
  }

  // ----- the temp-id map -----

  /** `ncIdMap` after the first `n` creates: each temp id mapped to the id the store gave its NC. */
  function IdMap(ds: seq<NcDraft>, ids: seq<string>, n: nat): map<string, string>
    requires n <= |ds| && n <= |ids|
  {
    if n == 0 then map[] else IdMap(ds, ids, n - 1)[ds[n - 1].tempId() := ids[n - 1]]
  }

  /** `ncIdMap[tempNcId]`: `None` stands for `undefined`. */
  function Lookup(m: map<string, string>, key: string): Option<string> {
    if key in m then Some(m[key]) else None
  }

  // ----- writes -----

  datatype Write =
    | DeleteDet(id: string)
    | DeleteNc(id: string)
    | DeleteRec(id: string)
    | SetAnswerNumber(id: string, cNo: int)
    | CreateNc(nc: NcDraft)
    | CreateDet(det: NcDraft, ncId: Option<string>)
    | CreateRec(rec: RecDraft)
    | SetFindingNumber(id: string, cNo: int)
    | SetNcNumber(id: string, ncNo: int)
    | SetDetNumber(id: string, dNo: int)
    | SetRecNumber(id: string, rNo: int)

  /** An NC the cleanup deletes: one with a truthy `resposta_checklist_id`. */
  predicate FromChecklistNc(nc: NonConformity) {
    Truthy(nc.respostaId)
  }

  /** The determinations `Determinacao.filter({ nao_conformidade_id })` returns for an NC. */
  function DetsOf(dets: seq<Determination>, ncId: string): (r: seq<Determination>)
    ensures forall x :: x in r <==> x in dets && x.ncId == Some(ncId)
  {
    var p := (x: Determination) => x.ncId == Some(ncId);
    assert forall x :: x in Filter(dets, p) <==> x in dets && p(x) by {
      forall x: Determination { FilterMembership(dets, p, x); }
    }
    Filter(dets, p)
  }

  function DetDeletes(xs: seq<Determination>): (ws: seq<Write>)
    ensures |ws| == |xs|
    ensures forall k :: 0 <= k < |xs| ==> ws[k] == DeleteDet(xs[k].id)
  {
    seq(|xs|, k requires 0 <= k < |xs| => DeleteDet(xs[k].id))
  }

  /** The deletions of the checklist NCs from index `i` on: each NC's determinations, then the NC. */
  function NcDeletesFrom(cl: seq<NonConformity>, dets: seq<Determination>, i: nat): seq<Write>
    requires i <= |cl|
    decreases |cl| - i
  {
    if i == |cl| then [] else DetDeletes(DetsOf(dets, cl[i].id)) + [DeleteNc(cl[i].id)] + NcDeletesFrom(cl, dets, i + 1)
  }

  function RecDeletes(xs: seq<Recommendation>): (ws: seq<Write>)
    ensures |ws| == |xs|
    ensures forall k :: 0 <= k < |xs| ==> ws[k] == DeleteRec(xs[k].id)
  {
    seq(|xs|, k requires 0 <= k < |xs| => DeleteRec(xs[k].id))
  }

  function ChecklistNcs(ncs: seq<NonConformity>): (r: seq<NonConformity>)
    ensures forall x :: x in r <==> x in ncs && FromChecklistNc(x)
  {
    assert forall x :: x in Filter(ncs, FromChecklistNc) <==> x in ncs && FromChecklistNc(x) by {
      forall x: NonConformity { FilterMembership(ncs, FromChecklistNc, x); }
    }
    Filter(ncs, FromChecklistNc)
  }

  function ChecklistRecs(recs: seq<Recommendation>): (r: seq<Recommendation>)
    ensures forall x :: x in r <==> x in recs && x.origem == FromChecklist
  {
    var p := (x: Recommendation) => x.origem == FromChecklist;
    assert forall x :: x in Filter(recs, p) <==> x in recs && p(x) by {
      forall x: Recommendation { FilterMembership(recs, p, x); }
    }
    Filter(recs, p)
  }

  /** The cleanup: checklist NCs with their determinations, then checklist recommendations. */
  function Cleanup(ncs: seq<NonConformity>, dets: seq<Determination>, recs: seq<Recommendation>): seq<Write> {
    NcDeletesFrom(ChecklistNcs(ncs), dets, 0) + RecDeletes(ChecklistRecs(recs))
  }

  function AnswerWrites(us: seq<AnswerNumber>): (ws: seq<Write>)
    ensures |ws| == |us|
    ensures forall k :: 0 <= k < |us| ==> ws[k] == SetAnswerNumber(us[k].id, us[k].cNo)
  {
    seq(|us|, k requires 0 <= k < |us| => SetAnswerNumber(us[k].id, us[k].cNo))
  }

  function NcWrites(ds: seq<NcDraft>): (ws: seq<Write>)
    ensures |ws| == |ds|
    ensures forall k :: 0 <= k < |ds| ==> ws[k] == CreateNc(ds[k])
  {
    seq(|ds|, k requires 0 <= k < |ds| => CreateNc(ds[k]))
  }

  /** Each determination is created with `nao_conformidade_id: ncIdMap[tempNcId]`. */
  function DetWrites(ds: seq<NcDraft>, m: map<string, string>): (ws: seq<Write>)
    ensures |ws| == |ds|
    ensures forall k :: 0 <= k < |ds| ==> ws[k] == CreateDet(ds[k], Lookup(m, ds[k].tempId()))
  {
    seq(|ds|, k requires 0 <= k < |ds| => CreateDet(ds[k], Lookup(m, ds[k].tempId())))
  }

  function RecWrites(rs: seq<RecDraft>): (ws: seq<Write>)
    ensures |ws| == |rs|
    ensures forall k :: 0 <= k < |rs| ==> ws[k] == CreateRec(rs[k])
  {
    seq(|rs|, k requires 0 <= k < |rs| => CreateRec(rs[k]))
  }

  // ----- the manual findings -----

  /** The NC records the store holds for the unit after the creates, checklist NCs recreated. */
  function CreatedNcs(ds: seq<NcDraft>, unitId: string, ids: seq<string>): seq<NonConformity>
    requires |ids| >= |ds|
  {
    seq(|ds|, k requires 0 <= k < |ds| =>
      NonConformity(ids[k], unitId, Some(ds[k].respostaId), Some(ds[k].numero()), Some(ds[k].artigoPortaria()),
                    Some(ds[k].descricao())))
  }

  function CreatedDets(ds: seq<NcDraft>, unitId: string, ids: seq<string>, m: map<string, string>): seq<Determination>
    requires |ids| >= |ds|
  {
    seq(|ds|, k requires 0 <= k < |ds| =>
      Determination(ids[k], unitId, Lookup(m, ds[k].tempId()), Some(ds[k].detNumero()), ds[k].detDescricao(),
                    Some(DetPrazo), None, "pendente"))
  }

  /** A determination the cleanup deleted: it belongs to a checklist NC. */
  predicate DeletedWithNc(x: Determination, ncs: seq<NonConformity>) {
    x.ncId.Some? && exists nc :: nc in ncs && FromChecklistNc(nc) && nc.id == x.ncId.value
  }

  /**
    The lookup as written: an NC not from an answer, with a truthy
    description that includes the finding's old number (`undefined` when it
    has none), so "C1" is also found in a description naming C12.
  */
  predicate MatchesAsWritten(nc: NonConformity, oldNumero: Option<string>) {
    !Truthy(nc.respostaId) && Truthy(nc.descricao) && Includes(nc.descricao.value, Show(oldNumero))
  }

  /** The lookup as intended: the description names exactly the finding's old number. */
  predicate MatchesByNumber(nc: NonConformity, oldNumero: Option<string>) {
    !Truthy(nc.respostaId) && Truthy(nc.descricao) && oldNumero.Some? && NamedConstatacao(nc.descricao.value) == oldNumero
  }

  /** What the manual loop finds for one finding: the NC, and that NC's first determination. */
  datatype FindingStep = FindingStep(findingId: string, nc: Option<NonConformity>, det: Option<Determination>)

  function FindingStepOf(f: ManualFinding, pool: seq<NonConformity>, detPool: seq<Determination>,
                         matches: (NonConformity, Option<string>) -> bool): (s: FindingStep)
    ensures s.findingId == f.id
    ensures s.nc.Some? ==> s.nc.value in pool && matches(s.nc.value, f.numero)
    ensures s.nc.None? ==> forall k :: 0 <= k < |pool| ==> !matches(pool[k], f.numero)
    ensures s.det.Some? ==> s.nc.Some? && s.det.value in detPool && s.det.value.ncId == Some(s.nc.value.id)
  {
    var nc := Find(pool, (x: NonConformity) => matches(x, f.numero));
    var det := if nc.Some? then Find(detPool, (x: Determination) => x.ncId == Some(nc.value.id)) else None;
    FindingStep(f.id, nc, det)
  }

  function FindingSteps(fs: seq<ManualFinding>, pool: seq<NonConformity>, detPool: seq<Determination>,
                        matches: (NonConformity, Option<string>) -> bool): (ss: seq<FindingStep>)
    ensures |ss| == |fs|
    ensures forall k :: 0 <= k < |fs| ==> ss[k].findingId == fs[k].id
  {
    seq(|fs|, k requires 0 <= k < |fs| => FindingStepOf(fs[k], pool, detPool, matches))
  }

  /**
    The manual loop from index `i` on, with `contadorC`, `contadorNC` and
    `contadorD` on entry: the finding's new number, then, when its NC is
    found, the NC's number and its first determination's; NC and D advance
    only then.
  */
  function ManualWritesFrom(ss: seq<FindingStep>, i: nat, c: int, n: int, d: int): seq<Write>
    requires i <= |ss|
    decreases |ss| - i
  {
    if i == |ss| then []
    else
      var s := ss[i];
      if s.nc.None? then [SetFindingNumber(s.findingId, c)] + ManualWritesFrom(ss, i + 1, c + 1, n, d)
      else
        [SetFindingNumber(s.findingId, c), SetNcNumber(s.nc.value.id, n)] +
        (if s.det.Some? then [SetDetNumber(s.det.value.id, d)] else []) +
        ManualWritesFrom(ss, i + 1, c + 1, n + 1, d + 1)
  }

  /** How many findings from index `i` on have their NC found. */
  function FoundFrom(ss: seq<FindingStep>, i: nat): nat
    requires i <= |ss|
    decreases |ss| - i
  {
    if i == |ss| then 0 else (if ss[i].nc.Some? then 1 else 0) + FoundFrom(ss, i + 1)
  }

  /**
    The manual recommendations the handler renumbers: the first
    `ManualRecLimit` of origin manual, with `recs` in `created_date` order.
  */
  function ManualRecs(recs: seq<Recommendation>): seq<Recommendation> {
    Take(Filter(recs, (x: Recommendation) => x.origem == FromManual), ManualRecLimit)
  }

  /** The manual recommendations renumbered from `R{r}` on. */
  function RecNumberWrites(xs: seq<Recommendation>, r: int): (ws: seq<Write>)
    ensures |ws| == |xs|
    ensures forall k :: 0 <= k < |xs| ==> ws[k] == SetRecNumber(xs[k].id, r + k)
  {
    seq(|xs|, k requires 0 <= k < |xs| => SetRecNumber(xs[k].id, r + k))
  }

  // ----- the request -----

  /** `contadores`: the next free value of each series. */
  datatype Counters = Counters(c: int, nc: int, d: int, r: int)

  datatype Response = Unauthorized | ServerError | Renumbered(next: Counters)

  /** The response and the writes performed, in order; a failed run keeps the writes done before the failure. */
  datatype Run = Run(response: Response, writes: seq<Write>)

  /** Everything the loop over answers plans, from the queried answers and items. */
  datatype ChecklistPlan = ChecklistPlan(updates: seq<AnswerNumber>, ncs: seq<NcDraft>, recs: seq<RecDraft>)

  /** The steps of the first 200 answers against the first 100 items. */
  function Steps(answers: seq<ChecklistAnswer>, items: seq<ChecklistItem>): (ss: seq<AnswerStep>)
    ensures |ss| == |Take(answers, AnswerLimit)|
    ensures forall j :: 0 <= j < |ss| ==> ss[j] == StepOf(answers[j], Take(items, ItemLimit))
  {
    StepsOf(Take(answers, AnswerLimit), Take(items, ItemLimit))
  }

  function PlanChecklist(answers: seq<ChecklistAnswer>, items: seq<ChecklistItem>): ChecklistPlan {
    var ss := Steps(answers, items);
    ChecklistPlan(UpdatesFrom(ss, 0, 1), NcsFrom(ss, 0, 1, 1, 1), RecsFrom(ss, 0, 1))
  }

  /** A create failed: the writes made so far stay, and the request ends with a 500. */
  function FailedRun(plan: ChecklistPlan, ncs: seq<NonConformity>, dets: seq<Determination>, recs: seq<Recommendation>,
                     newNcIds: seq<string>, newDetIds: seq<string>): (run: Run)
    requires |newNcIds| < |plan.ncs| || |newDetIds| < |plan.ncs|
    ensures run.response.ServerError?
  {
    Run(ServerError, Cleanup(ncs, dets, recs) + AnswerWrites(plan.updates) + CreatesMade(plan, newNcIds, newDetIds))
  }

  /** What the manual loop finds for each of the first 100 findings, among the NCs and determinations left after recreation. */
  function ManualSteps(matches: (NonConformity, Option<string>) -> bool, unitId: string, plan: ChecklistPlan,
                       ncs: seq<NonConformity>, dets: seq<Determination>, findings: seq<ManualFinding>,
                       newNcIds: seq<string>, newDetIds: seq<string>): (fsteps: seq<FindingStep>)
    requires |newNcIds| >= |plan.ncs| && |newDetIds| >= |plan.ncs|
    ensures |fsteps| == |Take(findings, FindingLimit)|
    ensures forall j :: 0 <= j < |fsteps| ==> fsteps[j].findingId == findings[j].id
  {
    var m := IdMap(plan.ncs, newNcIds, |plan.ncs|);
    var pool := Filter(ncs, (x: NonConformity) => !FromChecklistNc(x)) + CreatedNcs(plan.ncs, unitId, newNcIds);
    var detPool := Filter(dets, (x: Determination) => !DeletedWithNc(x, ncs)) +
                   CreatedDets(plan.ncs, unitId, newDetIds, m);
    var mf := Take(findings, FindingLimit);
    var ss := FindingSteps(mf, pool, detPool, matches);
    assert forall j :: 0 <= j < |ss| ==> mf[j] == findings[j];
    ss
  }

  /**
    Every create succeeded: the writes of the whole request, and the counters
    returned, once the manual loop's findings are known.
  */
  function CompletedRun(plan: ChecklistPlan, ncs: seq<NonConformity>, dets: seq<Determination>,
                        recs: seq<Recommendation>, newNcIds: seq<string>, fsteps: seq<FindingStep>): (run: Run)
    requires |newNcIds| >= |plan.ncs|
    ensures run.response.Renumbered?
  {
    var m := IdMap(plan.ncs, newNcIds, |plan.ncs|);
    var c0 := 1 + |plan.updates|;
    var n0 := 1 + |plan.ncs|;
    var r0 := 1 + |plan.recs|;
    var found := FoundFrom(fsteps, 0);
    var mrecs := ManualRecs(recs);
    var writes := Cleanup(ncs, dets, recs) + AnswerWrites(plan.updates) + NcWrites(plan.ncs) + DetWrites(plan.ncs, m) +
                  RecWrites(plan.recs) + ManualWritesFrom(fsteps, 0, c0, n0, n0) + RecNumberWrites(mrecs, r0);
    Run(Renumbered(Counters(c0 + |fsteps|, n0 + found, n0 + found, r0 + |mrecs|)), writes)
  }

  /**
    A call threw once `fault` writes were done: those writes stay and the
    request ends with a 500. A fault past the last write of `attempt` never
    happens, and the attempt stands.
  */
  function Interrupted(attempt: Run, fault: Option<nat>): (run: Run)
    ensures run.writes <= attempt.writes
    ensures ThrowsWithin(fault, |attempt.writes|) ==> run.response.ServerError? && |run.writes| == fault.value
    ensures !ThrowsWithin(fault, |attempt.writes|) ==> run == attempt
  {
    if ThrowsWithin(fault, |attempt.writes|) then Run(ServerError, WritesKept(attempt.writes, fault)) else attempt
  }

  /**
    The handler, for a given manual-NC lookup. `answers`, `items` and
    `findings` are the query results in query order; `ncs` are the unit's
    NCs and `dets` the determinations, in store order. `recs` are the unit's
    recommendations in `created_date` order, the order of the query for the
    manual ones (renumerarConstatacoes.ts:220-223). The earlier query for the
    checklist ones (renumerarConstatacoes.ts:41-44) is unsorted and unlimited;
    the cleanup reads the same sequence, so it deletes the same set of
    recommendations, though possibly in another order than the store's;
    `newNcIds` and `newDetIds` the ids the NC and determination creates
    return (too few of them is a create that threw). `fault`, when present,
    is the number of writes done before some other call (a query, a delete,
    an update or a recommendation create) throws.
  */
  function RenumberWith(matches: (NonConformity, Option<string>) -> bool, user: bool, unitId: string,
                        answers: seq<ChecklistAnswer>, items: seq<ChecklistItem>, ncs: seq<NonConformity>,
                        dets: seq<Determination>, recs: seq<Recommendation>, findings: seq<ManualFinding>,
                        newNcIds: seq<string>, newDetIds: seq<string>, fault: Option<nat>): (run: Run)
    ensures !user ==> run == Run(Unauthorized, [])
    ensures run.response.Renumbered? <==>
      user && |newNcIds| >= |PlanChecklist(answers, items).ncs| && |newDetIds| >= |PlanChecklist(answers, items).ncs| &&
      (fault.None? || fault.value > |run.writes|)
  {
    if !user then Run(Unauthorized, [])
    else
      var plan := PlanChecklist(answers, items);
      if |newNcIds| < |plan.ncs| || |newDetIds| < |plan.ncs| then
        Interrupted(FailedRun(plan, ncs, dets, recs, newNcIds, newDetIds), fault)
      else
        Interrupted(CompletedRun(plan, ncs, dets, recs, newNcIds,
                                 ManualSteps(matches, unitId, plan, ncs, dets, findings, newNcIds, newDetIds)), fault)
  }

  /** The handler as written, with the substring lookup of manual NCs. */
  function RenumerarConstatacoesAsWritten(user: bool, unitId: string, answers: seq<ChecklistAnswer>,
                                          items: seq<ChecklistItem>, ncs: seq<NonConformity>, dets: seq<Determination>,
                                          recs: seq<Recommendation>, findings: seq<ManualFinding>,
                                          newNcIds: seq<string>, newDetIds: seq<string>, fault: Option<nat>): (run: Run)
    ensures !user ==> run.response.Unauthorized? && run.writes == []
  {
    RenumberWith(MatchesAsWritten, user, unitId, answers, items, ncs, dets, recs, findings, newNcIds, newDetIds, fault)
  }

  /**
    The handler corrected: manual NCs found by the number their description
    names, every other step as written.
  */
  function RenumerarConstatacoesCorrected(user: bool, unitId: string, answers: seq<ChecklistAnswer>,
                                          items: seq<ChecklistItem>, ncs: seq<NonConformity>, dets: seq<Determination>,
                                          recs: seq<Recommendation>, findings: seq<ManualFinding>,
                                          newNcIds: seq<string>, newDetIds: seq<string>, fault: Option<nat>): (run: Run)
    ensures !user ==> run.response.Unauthorized? && run.writes == []
    ensures run.response.Renumbered? <==> user && |newNcIds| >= |PlanChecklist(answers, items).ncs| &&
                                          |newDetIds| >= |PlanChecklist(answers, items).ncs| &&
                                          (fault.None? || fault.value > |run.writes|)
  {
    RenumberWith(MatchesByNumber, user, unitId, answers, items, ncs, dets, recs, findings, newNcIds, newDetIds, fault)
  }

  // ----- properties: cleanup -----

  lemma {:induction false} NcDeletedIff(cl: seq<NonConformity>, dets: seq<Determination>, i: nat, id: string)
    requires i <= |cl|
    ensures DeleteNc(id) in NcDeletesFrom(cl, dets, i) <==> exists k :: i <= k < |cl| && cl[k].id == id
    decreases |cl| - i
  {
    if i < |cl| {
      var blk := DetDeletes(DetsOf(dets, cl[i].id));
      assert forall w :: w in blk ==> w.DeleteDet?;
      assert NcDeletesFrom(cl, dets, i) == blk + [DeleteNc(cl[i].id)] + NcDeletesFrom(cl, dets, i + 1);
      NcDeletedIff(cl, dets, i + 1, id);
    }
  }

  /** The cleanup deletes exactly the NCs with a truthy `resposta_checklist_id`; manual NCs are not touched. */
  lemma CleanupDeletesChecklistNcs(ncs: seq<NonConformity>, dets: seq<Determination>, recs: seq<Recommendation>, id: string)
    ensures DeleteNc(id) in Cleanup(ncs, dets, recs) <==> exists nc :: nc in ncs && FromChecklistNc(nc) && nc.id == id
  {
    var cl := ChecklistNcs(ncs);
    NcDeletedIff(cl, dets, 0, id);
    assert forall w :: w in RecDeletes(ChecklistRecs(recs)) ==> w.DeleteRec?;
    if exists nc :: nc in ncs && FromChecklistNc(nc) && nc.id == id {
      var nc :| nc in ncs && FromChecklistNc(nc) && nc.id == id;
      assert nc in cl;
    }
  }

  /** `a` is written before `b`. */
  predicate WrittenBefore(ws: seq<Write>, a: Write, b: Write) {
    exists p, q :: 0 <= p < q < |ws| && ws[p] == a && ws[q] == b
  }

  lemma WrittenBeforeThenMore(ws: seq<Write>, post: seq<Write>, a: Write, b: Write)
    requires WrittenBefore(ws, a, b)
    ensures WrittenBefore(ws + post, a, b)
  {
    var p, q :| 0 <= p < q < |ws| && ws[p] == a && ws[q] == b;
    assert (ws + post)[p] == a && (ws + post)[q] == b;
  }

  lemma WrittenBeforeAfterMore(pre: seq<Write>, ws: seq<Write>, a: Write, b: Write)
    requires WrittenBefore(ws, a, b)
    ensures WrittenBefore(pre + ws, a, b)
  {
    var p, q :| 0 <= p < q < |ws| && ws[p] == a && ws[q] == b;
    assert (pre + ws)[|pre| + p] == a && (pre + ws)[|pre| + q] == b;
  }

  lemma BlockDeletesDetFirst(xs: seq<Determination>, id: string, x: Determination)
    requires x in xs
    ensures WrittenBefore(DetDeletes(xs) + [DeleteNc(id)], DeleteDet(x.id), DeleteNc(id))
  {
    var ws := DetDeletes(xs) + [DeleteNc(id)];
    var j :| 0 <= j < |xs| && xs[j] == x;
    assert ws[j] == DeleteDet(x.id) && ws[|xs|] == DeleteNc(id);
  }

  lemma {:induction false} DetDeletedBeforeNc(cl: seq<NonConformity>, dets: seq<Determination>, i: nat, k: nat,
                                             x: Determination)
    requires i <= k < |cl| && x in DetsOf(dets, cl[k].id)
    ensures WrittenBefore(NcDeletesFrom(cl, dets, i), DeleteDet(x.id), DeleteNc(cl[k].id))
    decreases k - i
  {
    var blk := DetDeletes(DetsOf(dets, cl[i].id)) + [DeleteNc(cl[i].id)];
    var rest := NcDeletesFrom(cl, dets, i + 1);
    assert NcDeletesFrom(cl, dets, i) == blk + rest;
    if k == i {
      BlockDeletesDetFirst(DetsOf(dets, cl[i].id), cl[i].id, x);
      WrittenBeforeThenMore(blk, rest, DeleteDet(x.id), DeleteNc(cl[k].id));
    } else {
      DetDeletedBeforeNc(cl, dets, i + 1, k, x);
      WrittenBeforeAfterMore(blk, rest, DeleteDet(x.id), DeleteNc(cl[k].id));
    }
  }

  /** Every determination of a checklist NC is deleted, and before the NC itself. */
  lemma DeterminationsDeletedBeforeTheirNc(ncs: seq<NonConformity>, dets: seq<Determination>,
                                           recs: seq<Recommendation>, nc: NonConformity, x: Determination)
    requires nc in ncs && FromChecklistNc(nc) && x in dets && x.ncId == Some(nc.id)
    ensures WrittenBefore(Cleanup(ncs, dets, recs), DeleteDet(x.id), DeleteNc(nc.id))
  {
    var cl := ChecklistNcs(ncs);
    assert nc in cl;
    var k :| 0 <= k < |cl| && cl[k] == nc;
    DetDeletedBeforeNc(cl, dets, 0, k, x);
    WrittenBeforeThenMore(NcDeletesFrom(cl, dets, 0), RecDeletes(ChecklistRecs(recs)), DeleteDet(x.id), DeleteNc(nc.id));
  }

  lemma {:induction false} NcDeletesHoldNoRec(cl: seq<NonConformity>, dets: seq<Determination>, i: nat)
    requires i <= |cl|
    ensures forall w :: w in NcDeletesFrom(cl, dets, i) ==> !w.DeleteRec?
    decreases |cl| - i
  {
    if i < |cl| {
      var blk := DetDeletes(DetsOf(dets, cl[i].id));
      assert forall w :: w in blk ==> w.DeleteDet?;
      assert NcDeletesFrom(cl, dets, i) == blk + [DeleteNc(cl[i].id)] + NcDeletesFrom(cl, dets, i + 1);
      NcDeletesHoldNoRec(cl, dets, i + 1);
    }
  }

  /** The cleanup deletes exactly the unit's recommendations of origin 'checklist'. */
  lemma CleanupDeletesChecklistRecs(ncs: seq<NonConformity>, dets: seq<Determination>, recs: seq<Recommendation>,
                                    id: string)
    ensures DeleteRec(id) in Cleanup(ncs, dets, recs) <==> exists x :: x in recs && x.origem == FromChecklist && x.id == id
  {
    NcDeletesHoldNoRec(ChecklistNcs(ncs), dets, 0);
    var cr := ChecklistRecs(recs);
    if exists x :: x in recs && x.origem == FromChecklist && x.id == id {
      var x :| x in recs && x.origem == FromChecklist && x.id == id;
      var k :| 0 <= k < |cr| && cr[k] == x;
      assert RecDeletes(cr)[k] == DeleteRec(id);
    }
  }

  // ----- properties: the loop over answers -----

  /** How many steps in `[i, j)` are numbered. */
  function CountNumbered(ss: seq<AnswerStep>, i: nat, j: nat): nat
    requires i <= j <= |ss|
    decreases j - i
  {
    if i == j then 0 else (if ss[i].numbered then 1 else 0) + CountNumbered(ss, i + 1, j)
  }

  /** A numbered answer is updated with the next C number: one more than the numbered answers before it. */
  lemma {:induction false} NumberedAnswerGetsNextC(ss: seq<AnswerStep>, i: nat, c: int, j: nat)
    requires i <= j < |ss| && ss[j].numbered
    ensures AnswerNumber(ss[j].id, c + CountNumbered(ss, i, j)) in UpdatesFrom(ss, i, c)
    decreases j - i
  {
    if i < j {
      var c' := if ss[i].numbered then c + 1 else c;
      NumberedAnswerGetsNextC(ss, i + 1, c', j);
    }
  }

  /** Only numbered answers are updated: an answer that gets no number is not written. */
  lemma {:induction false} OnlyNumberedAnswersUpdated(ss: seq<AnswerStep>, i: nat, c: int, u: AnswerNumber)
    requires i <= |ss| && u in UpdatesFrom(ss, i, c)
    ensures exists j :: i <= j < |ss| && ss[j].numbered && ss[j].id == u.id
    decreases |ss| - i
  {
    if ss[i].numbered && u == AnswerNumber(ss[i].id, c) {
    } else {
      OnlyNumberedAnswersUpdated(ss, i + 1, if ss[i].numbered then c + 1 else c, u);
    }
  }

  /** An NC draft names the C number its own answer was updated with. */
  lemma {:induction false} NcNamesItsAnswerNumber(ss: seq<AnswerStep>, i: nat, c: int, n: int, d: int, x: NcDraft)
    requires i <= |ss| && x in NcsFrom(ss, i, c, n, d)
    ensures AnswerNumber(x.respostaId, x.cNo) in UpdatesFrom(ss, i, c)
    ensures exists j :: i <= j < |ss| && ss[j].makesNc && ss[j].id == x.respostaId
    decreases |ss| - i
  {
    if !ss[i].numbered {
      NcNamesItsAnswerNumber(ss, i + 1, c, n, d, x);
    } else if ss[i].makesNc {
      if x != NcDraft(ss[i].id, c, n, d, ss[i].textoNc, ss[i].artigo, ss[i].textoDet) {
        NcNamesItsAnswerNumber(ss, i + 1, c + 1, n + 1, d + 1, x);
      }
    } else {
      NcNamesItsAnswerNumber(ss, i + 1, c + 1, n, d, x);
    }
  }

  /** Each recommendation comes with an NC: there are never more recommendations than NCs. */
  lemma {:induction false} RecsAtMostNcs(ss: seq<AnswerStep>, i: nat, c: int, n: int, d: int, r: int)
    requires i <= |ss|
    ensures |RecsFrom(ss, i, r)| <= |NcsFrom(ss, i, c, n, d)|
    decreases |ss| - i
  {
    if i < |ss| {
      var c' := if ss[i].numbered then c + 1 else c;
      var m := if ss[i].numbered && ss[i].makesNc then 1 else 0;
      var r' := if ss[i].numbered && ss[i].makesNc && Truthy(ss[i].textoRec) then r + 1 else r;
      RecsAtMostNcs(ss, i + 1, c', n + m, d + m, r');
    }
  }

  /**
    The plan numbers answers C1, C2, … and NCs and determinations NC1/D1,
    NC2/D2, … together, recommendations R1, R2, …, and never plans more
    recommendations than NCs.
  */
  lemma PlanNumbering(answers: seq<ChecklistAnswer>, items: seq<ChecklistItem>)
    ensures var plan := PlanChecklist(answers, items);
      (forall k :: 0 <= k < |plan.updates| ==> plan.updates[k].cNo == k + 1) &&
      (forall k :: 0 <= k < |plan.ncs| ==> plan.ncs[k].ncNo == k + 1 && plan.ncs[k].dNo == k + 1) &&
      (forall k :: 0 <= k < |plan.recs| ==> plan.recs[k].rNo == k + 1) &&
      |plan.recs| <= |plan.ncs| <= |plan.updates| <= |answers|
  {
    var ss := Steps(answers, items);
    RecsAtMostNcs(ss, 0, 1, 1, 1, 1);
    NcsAtMostUpdates(ss, 0, 1, 1, 1);
  }

  lemma {:induction false} NcsAtMostUpdates(ss: seq<AnswerStep>, i: nat, c: int, n: int, d: int)
    requires i <= |ss|
    ensures |NcsFrom(ss, i, c, n, d)| <= |UpdatesFrom(ss, i, c)|
    decreases |ss| - i
  {
    if i < |ss| {
      var c' := if ss[i].numbered then c + 1 else c;
      var m := if ss[i].numbered && ss[i].makesNc then 1 else 0;
      NcsAtMostUpdates(ss, i + 1, c', n + m, d + m);
    }
  }

  /**
    An answer in the first 200 is updated exactly when it qualifies, and then
    with C{k}, one more than the qualifying answers before it.
  */
  lemma AnswersNumberedInOrder(answers: seq<ChecklistAnswer>, items: seq<ChecklistItem>, j: nat)
    requires j < |Take(answers, AnswerLimit)|
    ensures var ss := Steps(answers, items);
      ss[j].numbered ==>
        AnswerNumber(answers[j].id, 1 + CountNumbered(ss, 0, j)) in PlanChecklist(answers, items).updates
  {
    var ss := Steps(answers, items);
    if ss[j].numbered {
      NumberedAnswerGetsNextC(ss, 0, 1, j);
    }
  }

  /** Nothing else changes: every updated answer is one of the first 200 and qualifies (SIM or NAO with its template). */
  lemma UpdatedAnswersQualify(answers: seq<ChecklistAnswer>, items: seq<ChecklistItem>, u: AnswerNumber)
    requires u in PlanChecklist(answers, items).updates
    ensures exists j :: 0 <= j < |Take(answers, AnswerLimit)| && answers[j].id == u.id && Steps(answers, items)[j].numbered
  {
    OnlyNumberedAnswersUpdated(Steps(answers, items), 0, 1, u);
  }

  // ----- properties: the temp-id map -----

  lemma {:induction false} IdMapResolves(ds: seq<NcDraft>, ids: seq<string>, m: nat, k: nat)
    requires k < m <= |ds| && m <= |ids|
    requires forall a, b :: 0 <= a < b < m ==> ds[a].ncNo != ds[b].ncNo
    ensures Lookup(IdMap(ds, ids, m), ds[k].tempId()) == Some(ids[k])
    decreases m
  {
    var prev := IdMap(ds, ids, m - 1);
    assert IdMap(ds, ids, m) == prev[ds[m - 1].tempId() := ids[m - 1]];
    if k < m - 1 {
      assert Lookup(prev, ds[k].tempId()) == Some(ids[k]) by {
        IdMapResolves(ds, ids, m - 1, k);
      }
      assert ds[k].tempId() != ds[m - 1].tempId() by {
        LabelInjective("temp_nc_", ds[k].ncNo, ds[m - 1].ncNo);
      }
    }
  }

  /** Each recreated determination is written with the real id of the NC planned with it. */
  lemma DeterminationsGetTheirNcId(answers: seq<ChecklistAnswer>, items: seq<ChecklistItem>, newNcIds: seq<string>)
    requires |newNcIds| >= |PlanChecklist(answers, items).ncs|
    ensures var ds := PlanChecklist(answers, items).ncs;
      forall k :: 0 <= k < |ds| ==> DetWrites(ds, IdMap(ds, newNcIds, |ds|))[k] == CreateDet(ds[k], Some(newNcIds[k]))
  {
    var ds := PlanChecklist(answers, items).ncs;
    PlanNumbering(answers, items);
    forall k | 0 <= k < |ds|
      ensures DetWrites(ds, IdMap(ds, newNcIds, |ds|))[k] == CreateDet(ds[k], Some(newNcIds[k]))
    {
      IdMapResolves(ds, newNcIds, |ds|, k);
    }
  }

  // ----- properties: the manual findings -----

  /** Finding `j` gets the C number `c + (j - i)`: the findings are numbered consecutively. */
  lemma {:induction false} FindingGetsNextC(ss: seq<FindingStep>, i: nat, c: int, n: int, d: int, j: nat)
    requires i <= j < |ss|
    ensures SetFindingNumber(ss[j].findingId, c + (j - i)) in ManualWritesFrom(ss, i, c, n, d)
    decreases j - i
  {
    if i < j {
      var m := if ss[i].nc.Some? then 1 else 0;
      FindingGetsNextC(ss, i + 1, c + 1, n + m, d + m, j);
    }
  }

  /** A finding whose NC is found gets that NC renumbered. */
  lemma {:induction false} FoundNcRenumbered(ss: seq<FindingStep>, i: nat, c: int, n: int, d: int, j: nat)
    requires i <= j < |ss| && ss[j].nc.Some?
    ensures exists x :: n <= x < n + FoundFrom(ss, i) && SetNcNumber(ss[j].nc.value.id, x) in ManualWritesFrom(ss, i, c, n, d)
    decreases j - i
  {
    var s := ss[i];
    var m := if s.nc.Some? then 1 else 0;
    var here := if s.nc.None? then [SetFindingNumber(s.findingId, c)]
                else [SetFindingNumber(s.findingId, c), SetNcNumber(s.nc.value.id, n)] +
                     (if s.det.Some? then [SetDetNumber(s.det.value.id, d)] else []);
    var rest := ManualWritesFrom(ss, i + 1, c + 1, n + m, d + m);
    assert ManualWritesFrom(ss, i, c, n, d) == here + rest;
    if i < j {
      FoundNcRenumbered(ss, i + 1, c + 1, n + m, d + m, j);
      var x :| n + m <= x < n + m + FoundFrom(ss, i + 1) && SetNcNumber(ss[j].nc.value.id, x) in rest;
      assert SetNcNumber(ss[j].nc.value.id, x) in here + rest;
    } else {
      assert here[1] == SetNcNumber(ss[j].nc.value.id, n);
    }
  }

  /**
    The numbers the manual loop writes stay below the counters it ends with:
    C below `c + findings`, NC and D below their start plus the NCs found.
  */
  lemma {:induction false} ManualNumbersBelowCounters(ss: seq<FindingStep>, i: nat, c: int, n: int, d: int, w: Write)
    requires i <= |ss| && w in ManualWritesFrom(ss, i, c, n, d)
    ensures w.SetFindingNumber? || w.SetNcNumber? || w.SetDetNumber?
    ensures w.SetFindingNumber? ==> c <= w.cNo < c + (|ss| - i)
    ensures w.SetNcNumber? ==> n <= w.ncNo < n + FoundFrom(ss, i)
    ensures w.SetDetNumber? ==> d <= w.dNo < d + FoundFrom(ss, i)
    decreases |ss| - i
  {
    var s := ss[i];
    var m := if s.nc.Some? then 1 else 0;
    var here := if s.nc.None? then [SetFindingNumber(s.findingId, c)]
                else [SetFindingNumber(s.findingId, c), SetNcNumber(s.nc.value.id, n)] +
                     (if s.det.Some? then [SetDetNumber(s.det.value.id, d)] else []);
    assert ManualWritesFrom(ss, i, c, n, d) == here + ManualWritesFrom(ss, i + 1, c + 1, n + m, d + m);
    if w !in here {
      ManualNumbersBelowCounters(ss, i + 1, c + 1, n + m, d + m, w);
    }
  }

  // ----- the manual-NC lookup -----

  /**
    As written, the finding numbered C1 finds an NC whose description names
    C12, because "C1" occurs in "C12"; looking up by the named number does not.
  */
  lemma ManualLookupAsWrittenMisfires(artigo: string)
    ensures var nc := NonConformity("nc12", "u", None, Some("NC1"), None, Some(NcSentence("C12", artigo)));
      var f := ManualFinding("f1", "u", Some("C1"), None, true, None, None, None, 1);
      MatchesAsWritten(nc, Some("C1")) && NamedConstatacao(nc.descricao.value) == Some("C12") &&
      FindingStepOf(f, [nc], [], MatchesAsWritten).nc == Some(nc) &&
      FindingStepOf(f, [nc], [], MatchesByNumber).nc == None
  {
    var s := NcSentence("C12", artigo);
    assert s == NcOpening + "C12" + (" não cumpre o disposto no " + artigo + ";");
    assert s[14..16] == "C1";
    IncludesIff(s, "C1", 14);
    NamedConstatacaoOfSentence("C12", artigo);
  }

  /** Looked up by number, a finding C{m} finds the NC whose sentence names C{n} exactly when m == n. */
  lemma ManualLookupByNumber(nc: NonConformity, m: int, n: int, artigo: string)
    requires !Truthy(nc.respostaId) && nc.descricao == Some(NcSentence(Label("C", n), artigo))
    ensures MatchesByNumber(nc, Some(Label("C", m))) <==> m == n
  {
    LabelHasNoSpace("C", n);
    NamedConstatacaoOfSentence(Label("C", n), artigo);
    LabelInjective("C", m, n);
  }

  /** The lookup by number never finds an NC the substring lookup would miss. */
  lemma ByNumberRefinesAsWritten(nc: NonConformity, oldNumero: Option<string>)
    ensures MatchesByNumber(nc, oldNumero) ==> MatchesAsWritten(nc, oldNumero)
  {
    if MatchesByNumber(nc, oldNumero) {
      var s := nc.descricao.value;
      var o := oldNumero.value;
      assert StartsWith(s, NcOpening + o + " ");
      assert s[|NcOpening|..|NcOpening| + |o|] == (NcOpening + o + " ")[|NcOpening|..|NcOpening| + |o|];
      IncludesIff(s, o, |NcOpening|);
    }
  }

  // ----- properties: the whole request -----

  /**
    A run that renumbered is the completed run of its checklist plan. One
    that did not, with a user, is a 500 whose writes begin the writes the
    run would have made: a create returned no id, or a call threw after
    exactly those writes.
  */
  lemma RunCases(matches: (NonConformity, Option<string>) -> bool, user: bool, unitId: string,
      answers: seq<ChecklistAnswer>, items: seq<ChecklistItem>,
      ncs: seq<NonConformity>, dets: seq<Determination>, recs: seq<Recommendation>,
      findings: seq<ManualFinding>, newNcIds: seq<string>, newDetIds: seq<string>, fault: Option<nat>)
    ensures var run := RenumberWith(matches, user, unitId, answers, items, ncs, dets, recs, findings, newNcIds, newDetIds, fault);
      var plan := PlanChecklist(answers, items);
      (run.response.Renumbered? ==>
         |newNcIds| >= |plan.ncs| && |newDetIds| >= |plan.ncs| &&
         run == CompletedRun(plan, ncs, dets, recs, newNcIds, ManualSteps(matches, unitId, plan, ncs, dets, findings, newNcIds, newDetIds))) &&
      (user && !run.response.Renumbered? ==>
         run.response.ServerError? &&
         (((|newNcIds| < |plan.ncs| || |newDetIds| < |plan.ncs|) &&
           run.writes <= FailedRun(plan, ncs, dets, recs, newNcIds, newDetIds).writes) ||
          (|newNcIds| >= |plan.ncs| && |newDetIds| >= |plan.ncs| && fault == Some(|run.writes|) &&
           run.writes <= CompletedRun(plan, ncs, dets, recs, newNcIds, ManualSteps(matches, unitId, plan, ncs, dets, findings, newNcIds, newDetIds)).writes)))
  {
  }

  lemma InMiddle<T>(x: T, a: seq<T>, b: seq<T>, c: seq<T>)
    requires x in b
    ensures x in a + b + c
  {
  }

  lemma {:induction false} NcDeletesOnlyDelete(cl: seq<NonConformity>, dets: seq<Determination>, i: nat)
    requires i <= |cl|
    ensures forall w :: w in NcDeletesFrom(cl, dets, i) ==> w.DeleteDet? || w.DeleteNc?
    decreases |cl| - i
  {
    if i < |cl| {
      var blk := DetDeletes(DetsOf(dets, cl[i].id));
      assert forall w :: w in blk ==> w.DeleteDet?;
      assert NcDeletesFrom(cl, dets, i) == blk + [DeleteNc(cl[i].id)] + NcDeletesFrom(cl, dets, i + 1);
      NcDeletesOnlyDelete(cl, dets, i + 1);
    }
  }

  /** A number a write assigns lies in its series between 1 and the counter returned. */
  predicate NumberBelow(w: Write, next: Counters) {
    (w.SetAnswerNumber? || w.SetFindingNumber? ==> 1 <= w.cNo < next.c) &&
    (w.CreateNc? ==> 1 <= w.nc.ncNo < next.nc) &&
    (w.SetNcNumber? ==> 1 <= w.ncNo < next.nc) &&
    (w.CreateDet? ==> 1 <= w.det.dNo < next.d) &&
    (w.SetDetNumber? ==> 1 <= w.dNo < next.d) &&
    (w.CreateRec? ==> 1 <= w.rec.rNo < next.r) &&
    (w.SetRecNumber? ==> 1 <= w.rNo < next.r)
  }


  /** The writes of a completed run, part by part, keep every number below the returned counters. */
  lemma CompletedWriteBelow(plan: ChecklistPlan, ncs: seq<NonConformity>, dets: seq<Determination>,
                            recs: seq<Recommendation>, newNcIds: seq<string>, fsteps: seq<FindingStep>, w: Write)
    requires |newNcIds| >= |plan.ncs|
    requires forall k :: 0 <= k < |plan.updates| ==> plan.updates[k].cNo == k + 1
    requires forall k :: 0 <= k < |plan.ncs| ==> plan.ncs[k].ncNo == k + 1 && plan.ncs[k].dNo == k + 1
    requires forall k :: 0 <= k < |plan.recs| ==> plan.recs[k].rNo == k + 1
    requires w in CompletedRun(plan, ncs, dets, recs, newNcIds, fsteps).writes
    ensures NumberBelow(w, CompletedRun(plan, ncs, dets, recs, newNcIds, fsteps).response.next)
  {
    var n0 := 1 + |plan.ncs|;
    var next := Counters(1 + |plan.updates| + |fsteps|, n0 + FoundFrom(fsteps, 0), n0 + FoundFrom(fsteps, 0),
                         1 + |plan.recs| + |ManualRecs(recs)|);
    var m := IdMap(plan.ncs, newNcIds, |plan.ncs|);
    var cl := Cleanup(ncs, dets, recs);
    var aw := AnswerWrites(plan.updates);
    var nw := NcWrites(plan.ncs);
    var dw := DetWrites(plan.ncs, m);
    var rw := RecWrites(plan.recs);
    var cw := aw + nw + dw + rw;
    var ms := ManualWritesFrom(fsteps, 0, 1 + |plan.updates|, n0, n0);
    var post := RecNumberWrites(ManualRecs(recs), 1 + |plan.recs|);
    assert CompletedRun(plan, ncs, dets, recs, newNcIds, fsteps) ==
           Run(Renumbered(next), cl + aw + nw + dw + rw + ms + post);
    assert w in cl || w in cw || w in ms || w in post;
    if w in cl {
      CleanupWriteBelow(ncs, dets, recs, w, next);
    } else if w in ms {
      ManualWriteBelow(fsteps, 1 + |plan.updates|, n0, w, next);
    } else if w in cw {
      ChecklistWriteBelow(plan, m, w, next);
    } else {
      RecNumberWriteBelow(ManualRecs(recs), 1 + |plan.recs|, w, next);
    }
  }

  lemma CleanupWriteBelow(ncs: seq<NonConformity>, dets: seq<Determination>, recs: seq<Recommendation>,
                          w: Write, next: Counters)
    requires w in Cleanup(ncs, dets, recs)
    ensures w.DeleteDet? || w.DeleteNc? || w.DeleteRec?
    ensures NumberBelow(w, next)
  {
    if w in NcDeletesFrom(ChecklistNcs(ncs), dets, 0) {
      NcDeletesOnlyDelete(ChecklistNcs(ncs), dets, 0);
    }
  }

  lemma ManualWriteBelow(fsteps: seq<FindingStep>, c: int, n: int, w: Write, next: Counters)
    requires 1 <= c && 1 <= n && w in ManualWritesFrom(fsteps, 0, c, n, n)
    requires next.c == c + |fsteps| && next.nc == n + FoundFrom(fsteps, 0) && next.d == n + FoundFrom(fsteps, 0)
    ensures NumberBelow(w, next)
  {
    ManualNumbersBelowCounters(fsteps, 0, c, n, n, w);
  }

  lemma RecNumberWriteBelow(xs: seq<Recommendation>, r: int, w: Write, next: Counters)
    requires 1 <= r && w in RecNumberWrites(xs, r) && next.r == r + |xs|
    ensures NumberBelow(w, next)
  {
  }

  /** The checklist part of a completed run: answer updates and NC, determination and recommendation creates. */
  lemma ChecklistWriteBelow(plan: ChecklistPlan, m: map<string, string>, w: Write, next: Counters)
    requires w in AnswerWrites(plan.updates) + NcWrites(plan.ncs) + DetWrites(plan.ncs, m) + RecWrites(plan.recs)
    requires forall k :: 0 <= k < |plan.updates| ==> plan.updates[k].cNo == k + 1
    requires forall k :: 0 <= k < |plan.ncs| ==> plan.ncs[k].ncNo == k + 1 && plan.ncs[k].dNo == k + 1
    requires forall k :: 0 <= k < |plan.recs| ==> plan.recs[k].rNo == k + 1
    requires next.c >= 1 + |plan.updates| && next.nc >= 1 + |plan.ncs| && next.d >= 1 + |plan.ncs|
    requires next.r >= 1 + |plan.recs|
    ensures w.SetAnswerNumber? || w.CreateNc? || w.CreateDet? || w.CreateRec?
    ensures NumberBelow(w, next)
  {
  }

  /**
    The counters returned are the next free values: every C, NC, D and R
    number the run writes is at least 1 and below the counter of its series,
    and the C counter is one more than the qualifying answers and findings.
  */
  lemma CountersAreNextFree(matches: (NonConformity, Option<string>) -> bool, user: bool, unitId: string,
      answers: seq<ChecklistAnswer>, items: seq<ChecklistItem>,
      ncs: seq<NonConformity>, dets: seq<Determination>, recs: seq<Recommendation>,
      findings: seq<ManualFinding>, newNcIds: seq<string>, newDetIds: seq<string>, fault: Option<nat>, w: Write)
    ensures var run := RenumberWith(matches, user, unitId, answers, items, ncs, dets, recs, findings, newNcIds, newDetIds, fault);
      run.response.Renumbered? ==>
        run.response.next.c == 1 + |PlanChecklist(answers, items).updates| + |Take(findings, FindingLimit)| &&
        (w in run.writes ==> NumberBelow(w, run.response.next))
  {
    var plan := PlanChecklist(answers, items);
    var run := RenumberWith(matches, user, unitId, answers, items, ncs, dets, recs, findings, newNcIds, newDetIds, fault);
    if run.response.Renumbered? {
      assert |newNcIds| >= |plan.ncs| && |newDetIds| >= |plan.ncs|;
      var fsteps := ManualSteps(matches, unitId, plan, ncs, dets, findings, newNcIds, newDetIds);
      assert run == CompletedRun(plan, ncs, dets, recs, newNcIds, fsteps) by {
        RunCases(matches, user, unitId, answers, items, ncs, dets, recs, findings, newNcIds, newDetIds, fault);
      }
      if w in run.writes {
        PlanNumbering(answers, items);
        CompletedWriteBelow(plan, ncs, dets, recs, newNcIds, fsteps, w);
      }
    }
  }


  /**
    The manual findings are numbered after every checklist constatação,
    consecutively, in query order: finding `j` gets C{1 + updates + j}.
  */
  lemma CompletedFindingNumber(plan: ChecklistPlan, ncs: seq<NonConformity>, dets: seq<Determination>,
                               recs: seq<Recommendation>, newNcIds: seq<string>, fsteps: seq<FindingStep>, j: nat)
    requires |newNcIds| >= |plan.ncs| && j < |fsteps|
    ensures SetFindingNumber(fsteps[j].findingId, 1 + |plan.updates| + j) in
            CompletedRun(plan, ncs, dets, recs, newNcIds, fsteps).writes
  {
    var n0 := 1 + |plan.ncs|;
    var x := SetFindingNumber(fsteps[j].findingId, 1 + |plan.updates| + j);
    var pre := Cleanup(ncs, dets, recs) + AnswerWrites(plan.updates) + NcWrites(plan.ncs) +
               DetWrites(plan.ncs, IdMap(plan.ncs, newNcIds, |plan.ncs|)) + RecWrites(plan.recs);
    var ms := ManualWritesFrom(fsteps, 0, 1 + |plan.updates|, n0, n0);
    var post := RecNumberWrites(ManualRecs(recs), 1 + |plan.recs|);
    assert CompletedRun(plan, ncs, dets, recs, newNcIds, fsteps).writes == pre + ms + post;
    assert x in ms by {
      FindingGetsNextC(fsteps, 0, 1 + |plan.updates|, n0, n0, j);
    }
    assert x in pre + ms;
  }

  /** Manual recommendations are renumbered after the recreated checklist ones, in query order. */
  lemma CompletedManualRec(plan: ChecklistPlan, ncs: seq<NonConformity>, dets: seq<Determination>,
                           recs: seq<Recommendation>, newNcIds: seq<string>, fsteps: seq<FindingStep>, k: nat)
    requires |newNcIds| >= |plan.ncs| && k < |ManualRecs(recs)|
    ensures SetRecNumber(ManualRecs(recs)[k].id, 1 + |plan.recs| + k) in
            CompletedRun(plan, ncs, dets, recs, newNcIds, fsteps).writes
    ensures ManualRecs(recs)[k].origem == FromManual
  {
    var n0 := 1 + |plan.ncs|;
    var mr := ManualRecs(recs);
    var pre := Cleanup(ncs, dets, recs) + AnswerWrites(plan.updates) + NcWrites(plan.ncs) +
               DetWrites(plan.ncs, IdMap(plan.ncs, newNcIds, |plan.ncs|)) + RecWrites(plan.recs) +
               ManualWritesFrom(fsteps, 0, 1 + |plan.updates|, n0, n0);
    var ws := RecNumberWrites(mr, 1 + |plan.recs|);
    assert CompletedRun(plan, ncs, dets, recs, newNcIds, fsteps).writes == pre + ws;
    assert ws[k] in ws;
    assert ws[k] in pre + ws;
    var p := (x: Recommendation) => x.origem == FromManual;
    assert mr[k] == Filter(recs, p)[k];
  }

  lemma CompletedCreates(answers: seq<ChecklistAnswer>, items: seq<ChecklistItem>, ncs: seq<NonConformity>,
                         dets: seq<Determination>, recs: seq<Recommendation>, newNcIds: seq<string>,
                         fsteps: seq<FindingStep>, k: nat)
    requires |newNcIds| >= |PlanChecklist(answers, items).ncs| && k < |PlanChecklist(answers, items).ncs|
    ensures var plan := PlanChecklist(answers, items);
      var run := CompletedRun(plan, ncs, dets, recs, newNcIds, fsteps);
      CreateNc(plan.ncs[k]) in run.writes && CreateDet(plan.ncs[k], Some(newNcIds[k])) in run.writes
  {
    var plan := PlanChecklist(answers, items);
    var ds := plan.ncs;
    var n0 := 1 + |ds|;
    DeterminationsGetTheirNcId(answers, items, newNcIds);
    var nw := NcWrites(ds);
    var dw := DetWrites(ds, IdMap(ds, newNcIds, |ds|));
    assert nw[k] in nw;
    assert dw[k] in dw;
    InMiddle(nw[k], Cleanup(ncs, dets, recs) + AnswerWrites(plan.updates), nw, dw);
    InMiddle(dw[k], Cleanup(ncs, dets, recs) + AnswerWrites(plan.updates) + nw, dw, []);
  }

  /** Every recreated NC is created, and its determination is written with the id the store gave that NC. */
  lemma RunDeterminationsReferenceTheirNc(matches: (NonConformity, Option<string>) -> bool, user: bool, unitId: string,
      answers: seq<ChecklistAnswer>, items: seq<ChecklistItem>,
      ncs: seq<NonConformity>, dets: seq<Determination>, recs: seq<Recommendation>,
      findings: seq<ManualFinding>, newNcIds: seq<string>, newDetIds: seq<string>, fault: Option<nat>, k: nat)
    ensures var run := RenumberWith(matches, user, unitId, answers, items, ncs, dets, recs, findings, newNcIds, newDetIds, fault);
      var ds := PlanChecklist(answers, items).ncs;
      run.response.Renumbered? && k < |ds| ==>
        CreateNc(ds[k]) in run.writes && CreateDet(ds[k], Some(newNcIds[k])) in run.writes
  {
    var plan := PlanChecklist(answers, items);
    var run := RenumberWith(matches, user, unitId, answers, items, ncs, dets, recs, findings, newNcIds, newDetIds, fault);
    RunCases(matches, user, unitId, answers, items, ncs, dets, recs, findings, newNcIds, newDetIds, fault);
    if run.response.Renumbered? && k < |plan.ncs| {
      CompletedCreates(answers, items, ncs, dets, recs, newNcIds, ManualSteps(matches, unitId, plan, ncs, dets, findings, newNcIds, newDetIds), k);
    }
  }

  /** A failed run holds the cleanup and the answer updates, then only NC and determination creates. */
  lemma FailedRunWrites(plan: ChecklistPlan, ncs: seq<NonConformity>, dets: seq<Determination>,
                        recs: seq<Recommendation>, newNcIds: seq<string>, newDetIds: seq<string>, w: Write)
    requires |newNcIds| < |plan.ncs| || |newDetIds| < |plan.ncs|
    ensures var run := FailedRun(plan, ncs, dets, recs, newNcIds, newDetIds);
      Cleanup(ncs, dets, recs) + AnswerWrites(plan.updates) <= run.writes &&
      (w in run.writes ==> !w.SetFindingNumber? && !w.SetRecNumber?)
  {
    var run := FailedRun(plan, ncs, dets, recs, newNcIds, newDetIds);
    var before := Cleanup(ncs, dets, recs) + AnswerWrites(plan.updates);
    var rest := CreatesMade(plan, newNcIds, newDetIds);
    assert run.writes == before + rest;
    if w in before && w in Cleanup(ncs, dets, recs) {
      assert !w.SetFindingNumber? && !w.SetRecNumber? by {
        if w in NcDeletesFrom(ChecklistNcs(ncs), dets, 0) {
          NcDeletesOnlyDelete(ChecklistNcs(ncs), dets, 0);
        }
      }
    }
  }

  /** The creates a failed run made before the failing one. */
  function CreatesMade(plan: ChecklistPlan, newNcIds: seq<string>, newDetIds: seq<string>): (ws: seq<Write>)
    requires |newNcIds| < |plan.ncs| || |newDetIds| < |plan.ncs|
    ensures forall w :: w in ws ==> w.CreateNc? || w.CreateDet?
  {
    var nw := NcWrites(plan.ncs);
    if |newNcIds| < |plan.ncs| then
      assert forall w :: w in nw[..|newNcIds|] ==> w in nw;
      nw[..|newNcIds|]
    else
      var dw := DetWrites(plan.ncs, IdMap(plan.ncs, newNcIds, |plan.ncs|));
      assert forall w :: w in dw[..|newDetIds|] ==> w in dw;
      nw + dw[..|newDetIds|]
  }

  /**
    A create that returns no id, with no call throwing before it, ends the
    request with a 500 after the cleanup and the answer updates already
    written, and before any manual finding or recommendation is renumbered.
  */
  lemma FailedRunKeepsEarlierWrites(matches: (NonConformity, Option<string>) -> bool, user: bool, unitId: string,
      answers: seq<ChecklistAnswer>, items: seq<ChecklistItem>,
      ncs: seq<NonConformity>, dets: seq<Determination>, recs: seq<Recommendation>,
      findings: seq<ManualFinding>, newNcIds: seq<string>, newDetIds: seq<string>, w: Write)
    ensures var run := RenumberWith(matches, user, unitId, answers, items, ncs, dets, recs, findings, newNcIds, newDetIds, None);
      user && !run.response.Renumbered? ==>
        run.response.ServerError? &&
        Cleanup(ncs, dets, recs) + AnswerWrites(PlanChecklist(answers, items).updates) <= run.writes &&
        (w in run.writes ==> !w.SetFindingNumber? && !w.SetRecNumber?)
  {
    var plan := PlanChecklist(answers, items);
    RunCases(matches, user, unitId, answers, items, ncs, dets, recs, findings, newNcIds, newDetIds, None);
    if user && (|newNcIds| < |plan.ncs| || |newDetIds| < |plan.ncs|) {
      FailedRunWrites(plan, ncs, dets, recs, newNcIds, newDetIds, w);
    }
  }

  /**
    A call that throws after `k` writes of a run whose creates all return
    ids ends the request with a 500 that keeps exactly those `k` writes;
    no fault within the run's writes leaves the completed run.
  */
  lemma ThrowKeepsEarlierWrites(matches: (NonConformity, Option<string>) -> bool, user: bool, unitId: string,
      answers: seq<ChecklistAnswer>, items: seq<ChecklistItem>,
      ncs: seq<NonConformity>, dets: seq<Determination>, recs: seq<Recommendation>,
      findings: seq<ManualFinding>, newNcIds: seq<string>, newDetIds: seq<string>, fault: Option<nat>)
    ensures var plan := PlanChecklist(answers, items);
      var run := RenumberWith(matches, user, unitId, answers, items, ncs, dets, recs, findings, newNcIds, newDetIds, fault);
      user && |newNcIds| >= |plan.ncs| && |newDetIds| >= |plan.ncs| ==>
        var full := CompletedRun(plan, ncs, dets, recs, newNcIds, ManualSteps(matches, unitId, plan, ncs, dets, findings, newNcIds, newDetIds));
        (fault.Some? && fault.value <= |full.writes| ==> run == Run(ServerError, full.writes[..fault.value])) &&
        (fault.None? || fault.value > |full.writes| ==> run == full)
  {
  }
}
