/**
  functions/gerarNCsDaUnidade.ts: when a unit is finalised, plan in bulk the
  NCs of its checklist answers and manual findings, then a determination
  and/or recommendation per created NC, and report the unit's totals.

  Numbering starts at NC1, D1 and R1 in every call: there is no cross-unit
  offset, and nothing is deleted beforehand. The remote store is modelled by
  its query results (already restricted to the unit, in the query's order)
  and by the ids the NC bulk create hands out; every planned record carries
  the request's unit id, which is left implicit.
*/
module UnitFinalize {
  import opened Wrappers
  import opened Text
  import opened Entities
  import opened Phrasing

  /** The limits of the two queries: answers by `created_date`, manual findings by `ordem`. */
  const AnswerLimit: nat := 200
  const FindingLimit: nat := 100

  /** `prazo_dias || 30`, and the fixed deadline of a manual finding's determination. */
  const DefaultPrazo: int := 30

  /** What an NC is planned for: a checklist answer with its item, or a manual finding. */
  datatype NcSource = FromAnswer(answer: ChecklistAnswer, item: ChecklistItem) | FromFinding(finding: ManualFinding)

  /** An entry of `ncsParaCriar`: its number `NC{seqNo}` is kept as the integer it prints. */
  datatype NcPlan = NcPlan(source: NcSource, respostaId: Option<string>, seqNo: int)
  {
    function numero(): string { Label("NC", seqNo) }

    /** `artigo_portaria`: the item's, or the finding's with '' as default. */
    function artigo(): Option<string> {
      match source
      case FromAnswer(_, item) => item.artigo
      case FromFinding(f) => Some(OrElse(f.artigo, ""))
    }

    /** The NC sentence naming the constatação and the article. */
    function descricao(): string {
      match source
      case FromAnswer(a, item) => NcSentence(Show(a.numero), Show(item.artigo))
      case FromFinding(f) => NcSentence(Show(f.numero), OrElse(f.artigo, UnspecifiedArtigo))
    }
  }

  /**
    An entry of `determinacoesParaCriar`: its number `D{seqNo}` is kept as the
    integer it prints; `dataLimite` is a day number.
  */
  datatype DetPlan = DetPlan(ncId: string, seqNo: int, ncNumero: string, texto: string, prazoDias: int,
                             dataLimite: int, status: string)
  {
    function numero(): string { Label("D", seqNo) }

    /** "Para sanar a {NC} {texto}" */
    function descricao(): string { DetSentence(ncNumero, texto) }
  }

  /** An entry of `recomendacoesParaCriar`, numbered `R{seqNo}`. */
  datatype RecPlan = RecPlan(seqNo: int, descricao: string, origem: Origin)
  {
    function numero(): string { Label("R", seqNo) }
  }

  /**
    `itensMap[id]`: the map is filled in query order, so the last item with
    the id wins.
  */
  function ItemFor(items: seq<ChecklistItem>, id: string): (r: Option<ChecklistItem>)
    ensures r.None? ==> forall i :: 0 <= i < |items| ==> items[i].id != id
    ensures r.Some? ==> exists k :: 0 <= k < |items| && items[k] == r.value && r.value.id == id &&
                          forall j :: k < j < |items| ==> items[j].id != id
  {
    if items == [] then None
    else if items[|items| - 1].id == id then Some(items[|items| - 1])
    else
      var r := ItemFor(items[..|items| - 1], id);
      assert r.Some? ==> exists k :: 0 <= k < |items| - 1 && items[k] == r.value &&
                          forall j :: k < j < |items| ==> items[j].id != id;
      r
  }

  /** A checklist answer produces an NC: NAO, `gera_nc`, a known item, and a non-blank `texto_nc`. */
  predicate ChecklistNc(a: ChecklistAnswer, items: seq<ChecklistItem>) {
    a.resposta == Nao && a.geraNc && ItemFor(items, a.itemId).Some? && HasText(ItemFor(items, a.itemId).value.textoNc)
  }

  /** The first loop: one source per qualifying answer, in answer order. */
  function ChecklistSources(answers: seq<ChecklistAnswer>, items: seq<ChecklistItem>): (r: seq<NcSource>)
    ensures |r| <= |answers|
    ensures forall k :: 0 <= k < |r| ==> r[k].FromAnswer?
  {
    if answers == [] then []
    else
      var a := answers[0];
      (if ChecklistNc(a, items) then [FromAnswer(a, ItemFor(items, a.itemId).value)] else [])
        + ChecklistSources(answers[1..], items)
  }

  /** The second loop: one source per finding with `gera_nc`, in finding order. */
  function ManualSources(findings: seq<ManualFinding>): (r: seq<NcSource>)
    ensures |r| <= |findings|
    ensures forall k :: 0 <= k < |r| ==> r[k].FromFinding?
  {
    if findings == [] then []
    else (if findings[0].geraNc then [FromFinding(findings[0])] else []) + ManualSources(findings[1..])
  }

  /** The NC planned for a source under the number `n`. */
  function PlanNc(src: NcSource, n: int): NcPlan {
    NcPlan(src, if src.FromAnswer? then Some(src.answer.id) else None, n)
  }

  /** `contadorNC` runs from 1 over the checklist sources and then the manual ones. */
  function PlanNcs(answers: seq<ChecklistAnswer>, findings: seq<ManualFinding>, items: seq<ChecklistItem>): seq<NcPlan> {
    var srcs := ChecklistSources(answers, items) + ManualSources(findings);
    seq(|srcs|, k requires 0 <= k < |srcs| => PlanNc(srcs[k], k + 1))
  }

  // ----- determinations and recommendations -----

  /**
    What the loop over created NCs reads from an NC's item or finding: the
    determination text when one is planned, its deadline, and the
    recommendation text when one is planned.
  */
  datatype Followup = Followup(detTexto: Option<string>, prazo: int, recTexto: Option<string>, origem: Origin)

  /**
    For a checklist NC: a determination when `texto_determinacao` is
    non-blank (deadline `prazo_dias || 30`), otherwise a recommendation when
    `texto_recomendacao` is. For a manual NC: each independently, deadline 30.
  */
  function FollowupOf(src: NcSource): Followup {
    match src
    case FromAnswer(_, item) =>
      var prazo := if item.prazoDias.Some? && item.prazoDias.value != 0 then item.prazoDias.value else DefaultPrazo;
      if HasText(item.textoDet) then Followup(item.textoDet, prazo, None, FromChecklist)
      else Followup(None, prazo, if HasText(item.textoRec) then item.textoRec else None, FromChecklist)
    case FromFinding(f) =>
      Followup(if HasText(f.textoDet) then f.textoDet else None, DefaultPrazo,
               if HasText(f.textoRec) then f.textoRec else None, FromManual)
  }

  function Followups(plans: seq<NcPlan>): (fs: seq<Followup>)
    ensures |fs| == |plans|
  {
    seq(|plans|, k requires 0 <= k < |plans| => FollowupOf(plans[k].source))
  }

  /** The determination (zero or one) planned for the NC created with id `ncId`, numbered `D{d}`. */
  function DetFor(plan: NcPlan, f: Followup, ncId: string, today: int, d: int): seq<DetPlan> {
    if f.detTexto.Some? then
      [DetPlan(ncId, d, plan.numero(), f.detTexto.value, f.prazo, today + f.prazo, "pendente")]
    else []
  }

  /** The recommendation (zero or one) planned after an NC, numbered `R{r}`. */
  function RecFor(f: Followup, r: int): seq<RecPlan> {
    if f.recTexto.Some? then [RecPlan(r, f.recTexto.value, f.origem)] else []
  }

  /**
    The determinations of the loop over the created NCs from index `i` on,
    pairing the i-th plan with the i-th created id, `contadorD` being `d` on
    entry.
  */
  function DetsFrom(plans: seq<NcPlan>, fs: seq<Followup>, ncIds: seq<string>, i: nat, today: int, d: int)
    : (dets: seq<DetPlan>)
    requires i <= |plans| && |fs| >= |plans| && |ncIds| >= |plans|
    ensures |dets| <= |plans| - i
    decreases |plans| - i
  {
    if i == |plans| then []
    else
      var ds := DetFor(plans[i], fs[i], ncIds[i], today, d);
      ds + DetsFrom(plans, fs, ncIds, i + 1, today, d + |ds|)
  }

  /**
    The recommendations of the same loop from index `i` on, `contadorR`
    being `r` on entry; they depend on the NCs' follow-ups only.
  */
  function RecsFrom(fs: seq<Followup>, i: nat, r: int): (recs: seq<RecPlan>)
    requires i <= |fs|
    ensures |recs| <= |fs| - i
    decreases |fs| - i
  {
    if i == |fs| then []
    else
      var rs := RecFor(fs[i], r);
      rs + RecsFrom(fs, i + 1, r + |rs|)
  }

  /** `det` is the determination of `plan`, created with the NC id `ncId`. */
  predicate DetOfPlan(det: DetPlan, plan: NcPlan, f: Followup, ncId: string) {
    f.detTexto.Some? && det.ncId == ncId && det.ncNumero == plan.numero() && det.texto == f.detTexto.value &&
    det.prazoDias == f.prazo
  }

  // ----- the request -----

  /** `total_constatacoes` counts SIM/NAO answers with a non-blank stored question. */
  predicate CountsAsConstatacao(a: ChecklistAnswer) {
    a.resposta != Na && HasText(a.pergunta)
  }

  function TotalConstatacoes(answers: seq<ChecklistAnswer>, findings: seq<ManualFinding>): nat {
    |Filter(answers, CountsAsConstatacao)| + |findings|
  }

  datatype Response =
    | Unauthorized
    | BadRequest
    | ServerError
    | Generated(totalConstatacoes: nat, totalNcs: nat, totalDets: nat, totalRecs: nat)

  /** The response and the records created, NCs paired with the ids they were given. */
  datatype Run = Run(response: Response, ncs: seq<NcPlan>, ncIds: seq<string>, dets: seq<DetPlan>, recs: seq<RecPlan>)

  /**
    The handler. `answers` and `findings` are the unit's records in query
    order, `items` the items the `$in` query returns, `ncIds` the ids the NC
    bulk create assigns (too few of them is a failed create, hence a 500),
    `detsOk` and `recsOk` whether the determination and recommendation bulk
    creates succeed (consulted only when there is something to create; a
    failure is a 500 that keeps what was created before it), and `today` the
    current day.
  */
  function GerarNcsDaUnidade(user: bool, unitId: Option<string>, answers: seq<ChecklistAnswer>,
                             findings: seq<ManualFinding>, items: seq<ChecklistItem>, ncIds: seq<string>,
                             detsOk: bool, recsOk: bool, today: int): (run: Run)
    ensures !user ==> run == Run(Unauthorized, [], [], [], [])
    ensures user && !Truthy(unitId) ==> run == Run(BadRequest, [], [], [], [])
    ensures run.response.Generated? ==>
      run.response.totalNcs == |run.ncs| == |run.ncIds| &&
      run.response.totalDets == |run.dets| && run.response.totalRecs == |run.recs| &&
      run.response.totalConstatacoes == TotalConstatacoes(Take(answers, AnswerLimit), Take(findings, FindingLimit))
    ensures run.response.ServerError? ==>
      run.recs == [] && |run.ncs| == |run.ncIds| && (run.ncs == [] ==> run.dets == []) &&
      (run.ncs != [] ==> !detsOk || !recsOk)
  {
    if !user then Run(Unauthorized, [], [], [], [])
    else if !Truthy(unitId) then Run(BadRequest, [], [], [], [])
    else
      var rs := Take(answers, AnswerLimit);
      var ms := Take(findings, FindingLimit);
      var plans := PlanNcs(rs, ms, items);
      if |ncIds| < |plans| then Run(ServerError, [], [], [], [])
      else
        var ids := ncIds[..|plans|];
        var fs := Followups(plans);
        var dets := DetsFrom(plans, fs, ids, 0, today, 1);
        var recs := RecsFrom(fs, 0, 1);
        if dets != [] && !detsOk then Run(ServerError, plans, ids, [], [])
        else if recs != [] && !recsOk then Run(ServerError, plans, ids, dets, [])
        else Run(Generated(TotalConstatacoes(rs, ms), |plans|, |dets|, |recs|), plans, ids, dets, recs)
  }

  // ----- properties -----

  /** A checklist answer gets an NC source exactly when it qualifies, and the source carries its item. */
  lemma {:induction false} ChecklistSourceIff(answers: seq<ChecklistAnswer>, items: seq<ChecklistItem>,
                                              a: ChecklistAnswer, item: ChecklistItem)
    ensures FromAnswer(a, item) in ChecklistSources(answers, items) <==>
      a in answers && ChecklistNc(a, items) && ItemFor(items, a.itemId) == Some(item)
  {
    if answers != [] {
      ChecklistSourceIff(answers[1..], items, a, item);
      assert answers == [answers[0]] + answers[1..];
    }
  }

  /** Every manual finding with `gera_nc`, and no other, gets an NC source. */
  lemma {:induction false} ManualSourceIff(findings: seq<ManualFinding>, f: ManualFinding)
    ensures FromFinding(f) in ManualSources(findings) <==> f in findings && f.geraNc
  {
    if findings != [] {
      ManualSourceIff(findings[1..], f);
      assert findings == [findings[0]] + findings[1..];
    }
  }

  /**
    NCs are numbered NC1, NC2, … in plan order, all checklist NCs before the
    manual ones, and no two share a number.
  */
  lemma PlanNumbering(answers: seq<ChecklistAnswer>, findings: seq<ManualFinding>, items: seq<ChecklistItem>)
    ensures var plans := PlanNcs(answers, findings, items);
      var m := |ChecklistSources(answers, items)|;
      |plans| == m + |ManualSources(findings)| &&
      (forall k :: 0 <= k < |plans| ==> plans[k].seqNo == k + 1) &&
      (forall k :: 0 <= k < m ==> plans[k].source.FromAnswer? && plans[k].respostaId == Some(plans[k].source.answer.id)) &&
      (forall k :: m <= k < |plans| ==> plans[k].source.FromFinding? && plans[k].respostaId.None?)
  {
    var plans := PlanNcs(answers, findings, items);
    var cs := ChecklistSources(answers, items);
    var ms := ManualSources(findings);
    forall k | 0 <= k < |plans|
      ensures plans[k] == PlanNc((cs + ms)[k], k + 1)
      ensures k < |cs| ==> (cs + ms)[k] == cs[k]
      ensures |cs| <= k ==> (cs + ms)[k] == ms[k - |cs|]
    {
    }
  }

  /** No two planned NCs print the same `NC{n}` number. */
  lemma PlanNumbersDistinct(answers: seq<ChecklistAnswer>, findings: seq<ManualFinding>, items: seq<ChecklistItem>)
    ensures var plans := PlanNcs(answers, findings, items);
      forall k, l :: 0 <= k < l < |plans| ==> plans[k].numero() != plans[l].numero()
  {
    var plans := PlanNcs(answers, findings, items);
    PlanNumbering(answers, findings, items);
    forall k, l | 0 <= k < l < |plans|
      ensures plans[k].numero() != plans[l].numero()
    {
      LabelInjective("NC", plans[k].seqNo, plans[l].seqNo);
    }
  }


  /**
    An NC's text names the constatação number of its source, with the
    finding's article defaulting to 'artigo não especificado'; NCs of
    different constatações under the same article get different texts.
  */
  lemma NcTextNamesConstatacao(src1: NcSource, src2: NcSource, n1: int, n2: int)
    ensures src1.FromAnswer? ==>
      PlanNc(src1, n1).descricao() == NcSentence(Show(src1.answer.numero), Show(src1.item.artigo))
    ensures src1.FromFinding? ==>
      PlanNc(src1, n1).descricao() == NcSentence(Show(src1.finding.numero), OrElse(src1.finding.artigo, UnspecifiedArtigo)) &&
      PlanNc(src1, n1).artigo() == Some(OrElse(src1.finding.artigo, ""))
    ensures src1.FromFinding? && src2.FromFinding? && src1.finding.artigo == src2.finding.artigo &&
            src1.finding.numero.Some? && src2.finding.numero.Some? && src1.finding.numero != src2.finding.numero ==>
      PlanNc(src1, n1).descricao() != PlanNc(src2, n2).descricao()
  {
    if src1.FromFinding? && src2.FromFinding? && src1.finding.artigo == src2.finding.artigo {
      NcSentenceInjective(Show(src1.finding.numero), Show(src2.finding.numero), OrElse(src1.finding.artigo, UnspecifiedArtigo));
      if src1.finding.numero != src2.finding.numero && src1.finding.numero.Some? && src2.finding.numero.Some? {
        assert Show(src1.finding.numero) != Show(src2.finding.numero);
      }
    }
  }

  /**
    A checklist NC yields a determination when its item's determination text
    is non-blank, otherwise a recommendation when the recommendation text is,
    never both; a manual NC yields each independently. Deadlines are the
    item's `prazo_dias` (0 or missing giving 30), or 30 for a manual NC.
  */
  lemma PlanYields(src: NcSource)
    ensures var f := FollowupOf(src);
      src.FromAnswer? ==>
        (f.detTexto.Some? <==> HasText(src.item.textoDet)) &&
        (f.recTexto.Some? <==> !HasText(src.item.textoDet) && HasText(src.item.textoRec)) &&
        !(f.detTexto.Some? && f.recTexto.Some?) &&
        f.prazo == (if src.item.prazoDias.Some? && src.item.prazoDias.value != 0 then src.item.prazoDias.value else 30)
    ensures var f := FollowupOf(src);
      src.FromFinding? ==>
        (f.detTexto.Some? <==> HasText(src.finding.textoDet)) &&
        (f.recTexto.Some? <==> HasText(src.finding.textoRec)) &&
        f.prazo == 30
    ensures var f := FollowupOf(src);
      (f.detTexto.Some? ==> f.detTexto == (if src.FromAnswer? then src.item.textoDet else src.finding.textoDet)) &&
      (f.recTexto.Some? ==> f.recTexto == (if src.FromAnswer? then src.item.textoRec else src.finding.textoRec)) &&
      f.origem == (if src.FromAnswer? then FromChecklist else FromManual)
  {
  }

  /** `contadorD` goes up by one per determination: the j-th one is `D{d + j}`. */
  lemma {:induction false} DetsNumbered(plans: seq<NcPlan>, fs: seq<Followup>, ncIds: seq<string>,
                                        i: nat, today: int, d: int)
    requires i <= |plans| && |fs| >= |plans| && |ncIds| >= |plans|
    ensures forall j :: 0 <= j < |DetsFrom(plans, fs, ncIds, i, today, d)| ==>
      DetsFrom(plans, fs, ncIds, i, today, d)[j].seqNo == d + j
    decreases |plans| - i
  {
    if i < |plans| {
      var ds := DetFor(plans[i], fs[i], ncIds[i], today, d);
      DetsNumbered(plans, fs, ncIds, i + 1, today, d + |ds|);
    }
  }

  /** `contadorR` goes up by one per recommendation: the j-th one is `R{r + j}`. */
  lemma {:induction false} RecsNumbered(fs: seq<Followup>, i: nat, r: int)
    requires i <= |fs|
    ensures forall j :: 0 <= j < |RecsFrom(fs, i, r)| ==> RecsFrom(fs, i, r)[j].seqNo == r + j
    decreases |fs| - i
  {
    if i < |fs| {
      RecsNumbered(fs, i + 1, r + |RecFor(fs[i], r)|);
    }
  }

  /** Some planned NC from index `i` on has `det` as its determination. */
  predicate DetOfSomePlan(det: DetPlan, plans: seq<NcPlan>, fs: seq<Followup>, ncIds: seq<string>, i: nat)
    requires |fs| >= |plans| && |ncIds| >= |plans|
  {
    exists k :: i <= k < |plans| && DetOfPlan(det, plans[k], fs[k], ncIds[k])
  }

  /**
    Every determination belongs to one of the planned NCs: it carries the id
    created for that NC, the sentence naming its number and its deadline,
    counted from today.
  */
  lemma {:induction false} DeterminationsReferenceTheirNc(plans: seq<NcPlan>, fs: seq<Followup>, ncIds: seq<string>,
                                                          i: nat, today: int, d: int)
    requires i <= |plans| && |fs| >= |plans| && |ncIds| >= |plans|
    ensures forall det :: det in DetsFrom(plans, fs, ncIds, i, today, d) ==>
      det.dataLimite == today + det.prazoDias && DetOfSomePlan(det, plans, fs, ncIds, i)
    decreases |plans| - i
  {
    if i < |plans| {
      var ds := DetFor(plans[i], fs[i], ncIds[i], today, d);
      var rest := DetsFrom(plans, fs, ncIds, i + 1, today, d + |ds|);
      DeterminationsReferenceTheirNc(plans, fs, ncIds, i + 1, today, d + |ds|);
      forall det: DetPlan | det in ds + rest
        ensures det.dataLimite == today + det.prazoDias && DetOfSomePlan(det, plans, fs, ncIds, i)
      {
        if det in ds {
          assert DetOfPlan(det, plans[i], fs[i], ncIds[i]);
        } else {
          var k :| i + 1 <= k < |plans| && DetOfPlan(det, plans[k], fs[k], ncIds[k]);
        }
      }
    }
  }

  /** Some determination in `dets` is the one of `plan`. */
  predicate HasDetFor(dets: seq<DetPlan>, plan: NcPlan, f: Followup, ncId: string) {
    exists det :: det in dets && DetOfPlan(det, plan, f, ncId)
  }

  /** The NC at index `k` gets its determination when it plans one. */
  lemma {:induction false} NcGetsItsDetermination(plans: seq<NcPlan>, fs: seq<Followup>, ncIds: seq<string>,
                                                  i: nat, today: int, d: int, k: nat)
    requires i <= k < |plans| && |fs| >= |plans| && |ncIds| >= |plans|
    requires fs[k].detTexto.Some?
    ensures HasDetFor(DetsFrom(plans, fs, ncIds, i, today, d), plans[k], fs[k], ncIds[k])
    decreases k - i
  {
    var ds := DetFor(plans[i], fs[i], ncIds[i], today, d);
    var rest := DetsFrom(plans, fs, ncIds, i + 1, today, d + |ds|);
    assert DetsFrom(plans, fs, ncIds, i, today, d) == ds + rest;
    if k == i {
      assert ds[0] in ds + rest && DetOfPlan(ds[0], plans[i], fs[i], ncIds[i]);
    } else {
      NcGetsItsDetermination(plans, fs, ncIds, i + 1, today, d + |ds|, k);
      var det :| det in rest && DetOfPlan(det, plans[k], fs[k], ncIds[k]);
      assert det in ds + rest;
    }
  }

  /** Each recommendation carries the text and origin of some NC that plans one. */
  lemma {:induction false} RecommendationsComeFromNcs(fs: seq<Followup>, i: nat, r: int)
    requires i <= |fs|
    ensures forall rec :: rec in RecsFrom(fs, i, r) ==>
      exists k :: i <= k < |fs| && fs[k].recTexto == Some(rec.descricao) && fs[k].origem == rec.origem
    decreases |fs| - i
  {
    if i < |fs| {
      var rs := RecFor(fs[i], r);
      var rest := RecsFrom(fs, i + 1, r + |rs|);
      RecommendationsComeFromNcs(fs, i + 1, r + |rs|);
      forall rec: RecPlan | rec in rs + rest
        ensures exists k :: i <= k < |fs| && fs[k].recTexto == Some(rec.descricao) && fs[k].origem == rec.origem
      {
        if rec in rs {
          assert fs[i].recTexto == Some(rec.descricao) && fs[i].origem == rec.origem;
        } else {
          var k :| i + 1 <= k < |fs| && fs[k].recTexto == Some(rec.descricao) && fs[k].origem == rec.origem;
        }
      }
    }
  }

  /**
    A generated run numbers its NCs from NC1 whatever other units hold, and
    pairs every NC with its own created id.
  */
  lemma NcNumbersStartAtOne(user: bool, unitId: Option<string>, answers: seq<ChecklistAnswer>,
                            findings: seq<ManualFinding>, items: seq<ChecklistItem>, ncIds: seq<string>,
                            detsOk: bool, recsOk: bool, today: int)
    ensures var run := GerarNcsDaUnidade(user, unitId, answers, findings, items, ncIds, detsOk, recsOk, today);
      run.response.Generated? ==>
        forall k :: 0 <= k < |run.ncs| ==> run.ncs[k].seqNo == k + 1 && run.ncIds[k] == ncIds[k]
  {
  }

  /** A generated run numbers its determinations D1, D2, … with no gap. */
  lemma DeterminationNumbersStartAtOne(user: bool, unitId: Option<string>, answers: seq<ChecklistAnswer>,
                                       findings: seq<ManualFinding>, items: seq<ChecklistItem>, ncIds: seq<string>,
                                       detsOk: bool, recsOk: bool, today: int)
    ensures var run := GerarNcsDaUnidade(user, unitId, answers, findings, items, ncIds, detsOk, recsOk, today);
      run.response.Generated? ==> forall j :: 0 <= j < |run.dets| ==> run.dets[j].seqNo == j + 1
  {
    var run := GerarNcsDaUnidade(user, unitId, answers, findings, items, ncIds, detsOk, recsOk, today);
    if run.response.Generated? {
      DetsNumbered(run.ncs, Followups(run.ncs), run.ncIds, 0, today, 1);
    }
  }

  /** A generated run numbers its recommendations R1, R2, … with no gap. */
  lemma RecommendationNumbersStartAtOne(user: bool, unitId: Option<string>, answers: seq<ChecklistAnswer>,
                                        findings: seq<ManualFinding>, items: seq<ChecklistItem>, ncIds: seq<string>,
                                        detsOk: bool, recsOk: bool, today: int)
    ensures var run := GerarNcsDaUnidade(user, unitId, answers, findings, items, ncIds, detsOk, recsOk, today);
      run.response.Generated? ==> forall j :: 0 <= j < |run.recs| ==> run.recs[j].seqNo == j + 1
  {
    var run := GerarNcsDaUnidade(user, unitId, answers, findings, items, ncIds, detsOk, recsOk, today);
    if run.response.Generated? {
      RecsNumbered(Followups(run.ncs), 0, 1);
    }
  }

  /**
    In a generated run every determination names one of the created NCs by
    its id and number and follows that NC's item or finding, and every NC
    that plans a determination has one.
  */
  lemma RunDeterminationsFollowNcs(user: bool, unitId: Option<string>, answers: seq<ChecklistAnswer>,
                                   findings: seq<ManualFinding>, items: seq<ChecklistItem>, ncIds: seq<string>,
                            detsOk: bool, recsOk: bool, today: int)
    ensures var run := GerarNcsDaUnidade(user, unitId, answers, findings, items, ncIds, detsOk, recsOk, today);
      run.response.Generated? ==>
        (forall det :: det in run.dets ==>
          det.dataLimite == today + det.prazoDias && DetOfSomePlan(det, run.ncs, Followups(run.ncs), run.ncIds, 0)) &&
        (forall k :: 0 <= k < |run.ncs| && FollowupOf(run.ncs[k].source).detTexto.Some? ==>
          HasDetFor(run.dets, run.ncs[k], FollowupOf(run.ncs[k].source), run.ncIds[k]))
  {
    var run := GerarNcsDaUnidade(user, unitId, answers, findings, items, ncIds, detsOk, recsOk, today);
    if run.response.Generated? {
      var plans := run.ncs;
      var fs := Followups(plans);
      assert forall k :: 0 <= k < |plans| ==> fs[k] == FollowupOf(plans[k].source);
      DeterminationsReferenceTheirNc(plans, fs, run.ncIds, 0, today, 1);
      forall k | 0 <= k < |plans| && fs[k].detTexto.Some?
        ensures HasDetFor(run.dets, plans[k], fs[k], run.ncIds[k])
      {
        NcGetsItsDetermination(plans, fs, run.ncIds, 0, today, 1, k);
      }
    }
  }

  /** The determinations a unit's NCs plan, given enough created NC ids. */
  function PlannedDets(plans: seq<NcPlan>, ncIds: seq<string>, today: int): seq<DetPlan>
    requires |ncIds| >= |plans|
  {
    DetsFrom(plans, Followups(plans), ncIds[..|plans|], 0, today, 1)
  }

  /** The recommendations a unit's NCs plan. */
  function PlannedRecs(plans: seq<NcPlan>): seq<RecPlan> {
    RecsFrom(Followups(plans), 0, 1)
  }

  /**
    The request is generated exactly when authorised, with a unit id, the NC
    bulk create succeeds, and each follow-up bulk create that has something
    to create succeeds.
  */
  lemma GeneratedIff(user: bool, unitId: Option<string>, answers: seq<ChecklistAnswer>,
                     findings: seq<ManualFinding>, items: seq<ChecklistItem>, ncIds: seq<string>,
                     detsOk: bool, recsOk: bool, today: int)
    ensures var plans := PlanNcs(Take(answers, AnswerLimit), Take(findings, FindingLimit), items);
      GerarNcsDaUnidade(user, unitId, answers, findings, items, ncIds, detsOk, recsOk, today).response.Generated? <==>
        user && Truthy(unitId) && |ncIds| >= |plans| &&
        (PlannedDets(plans, ncIds, today) == [] || detsOk) && (PlannedRecs(plans) == [] || recsOk)
  {
  }

  /**
    A failed follow-up bulk create is a 500 that leaves the NCs created: a
    failed determination create leaves only them, a failed recommendation
    create leaves them and the determinations.
  */
  lemma FailedFollowupKeepsEarlierWrites(user: bool, unitId: Option<string>, answers: seq<ChecklistAnswer>,
                                         findings: seq<ManualFinding>, items: seq<ChecklistItem>,
                                         ncIds: seq<string>, detsOk: bool, recsOk: bool, today: int)
    ensures var plans := PlanNcs(Take(answers, AnswerLimit), Take(findings, FindingLimit), items);
      var run := GerarNcsDaUnidade(user, unitId, answers, findings, items, ncIds, detsOk, recsOk, today);
      user && Truthy(unitId) && |ncIds| >= |plans| ==>
        (PlannedDets(plans, ncIds, today) != [] && !detsOk ==>
          run == Run(ServerError, plans, ncIds[..|plans|], [], [])) &&
        ((PlannedDets(plans, ncIds, today) == [] || detsOk) && PlannedRecs(plans) != [] && !recsOk ==>
          run == Run(ServerError, plans, ncIds[..|plans|], PlannedDets(plans, ncIds, today), []))
  {
  }

  /** Answers after the 200th and findings after the 100th have no effect. */
  lemma QueryLimitsCut(user: bool, unitId: Option<string>, answers: seq<ChecklistAnswer>,
                       findings: seq<ManualFinding>, items: seq<ChecklistItem>, ncIds: seq<string>,
                       detsOk: bool, recsOk: bool, today: int,
                       moreAnswers: seq<ChecklistAnswer>, moreFindings: seq<ManualFinding>)
    requires |answers| >= AnswerLimit && |findings| >= FindingLimit
    ensures GerarNcsDaUnidade(user, unitId, answers + moreAnswers, findings + moreFindings, items, ncIds, detsOk, recsOk, today) ==
            GerarNcsDaUnidade(user, unitId, answers, findings, items, ncIds, detsOk, recsOk, today)
  {
    assert Take(answers + moreAnswers, AnswerLimit) == Take(answers, AnswerLimit);
    assert Take(findings + moreFindings, FindingLimit) == Take(findings, FindingLimit);
  }

  /** The NC total counts the qualifying answers and findings, and is at most all of them. */
  lemma TotalNcsCountsSources(user: bool, unitId: Option<string>, answers: seq<ChecklistAnswer>,
                              findings: seq<ManualFinding>, items: seq<ChecklistItem>, ncIds: seq<string>,
                            detsOk: bool, recsOk: bool, today: int)
    ensures var run := GerarNcsDaUnidade(user, unitId, answers, findings, items, ncIds, detsOk, recsOk, today);
      run.response.Generated? ==>
        run.response.totalNcs ==
          |ChecklistSources(Take(answers, AnswerLimit), items)| + |ManualSources(Take(findings, FindingLimit))| &&
        run.response.totalNcs <= |answers| + |findings| &&
        run.response.totalDets <= run.response.totalNcs && run.response.totalRecs <= run.response.totalNcs
  {
  }
}
