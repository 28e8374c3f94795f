/**
  The data logic of the unit inspection page (src/pages/VistoriarUnidade.jsx):
  the batch that turns queued checklist answers into stored answers with
  their constatação text and number, the mutations for answers, manual
  recommendations and manual findings, each refused on a finalised
  inspection outside edit mode, and the totals saved in edit mode.

  The page's queries are parameters: the unit's answers and manual findings
  in the order the server returns them, cut to the query's page size here.
  Writes are returned, not performed.
*/
module InspectionPage {
  import opened Wrappers
  import opened Text
  import opened Entities
  import BatchCascade

  /** The message the page's mutations throw on a finalised inspection. */
  const PageLockedMessage: string := "Não é possível modificar uma fiscalização finalizada"

  /** `fiscalizacao?.status === 'finalizada' && !modoEdicao` */
  predicate PageLocked(f: Option<Inspection>, modoEdicao: bool) {
    f.Some? && f.value.status == Finalizada && !modoEdicao
  }

  /** The page sizes of the answer and manual-finding queries. */
  const AnswerPage: nat := 200
  const ManualPage: nat := 100

  /** An answer the inspector gave: its value and observation. */
  datatype AnswerInput = AnswerInput(resposta: AnswerValue, observacao: Option<string>)

  /** An entry of the answer queue. */
  datatype Queued = Queued(itemId: string, data: AnswerInput)

  /**
    salvarRespostaMutation: refused on a locked page; otherwise the answer
    joins the queue the batch drains.
  */
  function SaveAnswer(f: Option<Inspection>, modoEdicao: bool, queue: seq<Queued>, entry: Queued): (r: Result<seq<Queued>, string>)
    ensures r.Err? <==> PageLocked(f, modoEdicao)
    ensures r.Err? ==> r.error == PageLockedMessage
    ensures r.Ok? ==> |r.value| == |queue| + 1 && r.value[..|queue|] == queue && r.value[|queue|] == entry
  {
    if PageLocked(f, modoEdicao) then Err(PageLockedMessage) else Ok(queue + [entry])
  }

  /** The text of the item for the answer: `texto_constatacao_sim` for SIM, `texto_constatacao_nao` for NAO, none for NA. */
  function RawText(item: ChecklistItem, resposta: AnswerValue): Option<string> {
    match resposta
    case Sim => item.textoSim
    case Nao => item.textoNao
    case Na => None
  }

  /**
    The stored constatação text: none when blank; the trimmed text with a
    trailing ';' when it lacks one; the text as it is otherwise.
  */
  function ConstatacaoText(raw: Option<string>): Option<string> {
    if !HasText(raw) then None
    else if !EndsWith(Trim(raw.value), ";") then Some(Trim(raw.value) + ";")
    else raw
  }

  /**
    The text is present exactly when the item's text is not blank, and then
    it is the item's text, trimmed, ending with ';'. Formatting it again
    changes nothing.
  */
  lemma ConstatacaoTextShape(raw: Option<string>)
    ensures ConstatacaoText(raw).Some? <==> HasText(raw)
    ensures HasText(raw) ==>
      var t := ConstatacaoText(raw).value;
      && HasText(Some(t)) && EndsWith(Trim(t), ";")
      && (Trim(t) == Trim(raw.value) || Trim(t) == Trim(raw.value) + ";")
    ensures ConstatacaoText(ConstatacaoText(raw)) == ConstatacaoText(raw)
  {
    if HasText(raw) {
      var s := Trim(raw.value);
      TrimIdempotent(raw.value);
      if !EndsWith(s, ";") {
        TrimOfTrimmedPlus(s, ';');
        assert EndsWith(s + ";", ";");
      }
    }
  }

  lemma TextNotEmpty(raw: Option<string>)
    ensures ConstatacaoText(raw).Some? ==> ConstatacaoText(raw).value != ""
  {
    if HasText(raw) && !EndsWith(Trim(raw.value), ";") {
      assert (Trim(raw.value) + ";")[|Trim(raw.value)|] == ';';
    }
  }

  /** A write the batch makes: an update of the existing answer, or a new answer. */
  datatype Write =
    | UpdateAnswer(id: string, resposta: AnswerValue, observacao: string, texto: string, numero: Option<nat>, geraNc: bool)
    | CreateAnswer(unitId: string, itemId: string, pergunta: Option<string>, resposta: AnswerValue, geraNc: bool,
                   numero: Option<nat>, observacao: string)

  /** The text a write stores, an update's empty text read as none. */
  function Stored(w: Write): Option<string> {
    if w.UpdateAnswer? then (if w.texto == "" then None else Some(w.texto)) else w.pergunta
  }

  /** `numero_constatacao` as the record holds it: `C<n>` or null. */
  function NumeroText(w: Write): Option<string> {
    if w.numero.Some? then Some(Label("C", w.numero.value)) else None
  }

  /** `respostasAtuais.find(r => r.item_checklist_id === itemId)` */
  function ExistingAnswer(current: seq<ChecklistAnswer>, itemId: string): (r: Option<ChecklistAnswer>)
    ensures r.Some? ==> r.value in current && r.value.itemId == itemId
    ensures r.None? ==> forall a :: a in current ==> a.itemId != itemId
  {
    Find(current, (a: ChecklistAnswer) => a.itemId == itemId)
  }

  /**
    The write for one queued answer whose item is known, numbered `c` if it
    has text: an update when an answer for the item exists (with an id), a
    creation otherwise. Both store the same text, and `gera_nc` is NAO on an
    item that generates NCs.
  */
  function WriteFor(entry: Queued, item: ChecklistItem, current: seq<ChecklistAnswer>, unitId: string, c: nat): (w: Write)
    ensures Stored(w) == ConstatacaoText(RawText(item, entry.data.resposta))
    ensures w.numero.Some? <==> Stored(w).Some?
    ensures w.numero.Some? ==> w.numero.value == c
    ensures entry.data.resposta == Na ==> w.numero.None? && Stored(w).None?
    ensures w.resposta == entry.data.resposta
    ensures w.geraNc <==> entry.data.resposta == Nao && item.geraNc
    ensures w.UpdateAnswer? <==> ExistingAnswer(current, entry.itemId).Some? && ExistingAnswer(current, entry.itemId).value.id != ""
    ensures w.UpdateAnswer? ==> w.id == ExistingAnswer(current, entry.itemId).value.id
    ensures w.CreateAnswer? ==> w.itemId == entry.itemId && w.unitId == unitId
  {
    var existing := ExistingAnswer(current, entry.itemId);
    var text := ConstatacaoText(RawText(item, entry.data.resposta));
    TextNotEmpty(RawText(item, entry.data.resposta));
    var numero: Option<nat> := if text.Some? then Some(c) else None;
    var geraNc := entry.data.resposta == Nao && item.geraNc;
    var obs := OrElse(entry.data.observacao, "");
    if existing.Some? && existing.value.id != "" then
      UpdateAnswer(existing.value.id, entry.data.resposta, obs, OrElse(text, ""), numero, geraNc)
    else CreateAnswer(unitId, entry.itemId, text, entry.data.resposta, geraNc, numero, obs)
  }

  /** How many of the first `j` writes carry a number. */
  function NumberedBefore(ws: seq<Write>, j: nat): nat
    requires j <= |ws|
  {
    if j == 0 then 0 else NumberedBefore(ws, j - 1) + (if ws[j - 1].numero.Some? then 1 else 0)
  }

  lemma {:induction false} NumberedBeforeCons(w: Write, rest: seq<Write>, j: nat)
    requires 1 <= j <= |rest| + 1
    ensures NumberedBefore([w] + rest, j) == (if w.numero.Some? then 1 else 0) + NumberedBefore(rest, j - 1)
  {
    if j > 1 {
      NumberedBeforeCons(w, rest, j - 1);
      assert ([w] + rest)[j - 1] == rest[j - 2];
    }
  }

  /** `itensChecklist.find(i => i.id === itemId)` */
  function KnownItem(items: seq<ChecklistItem>, itemId: string): Option<ChecklistItem> {
    Find(items, (it: ChecklistItem) => it.id == itemId)
  }

  /**
    The batch loop from entry `i` on with counter `c`: an entry whose item
    is unknown is skipped; every write with text takes the counter, which
    then moves on.
  */
  function Batch(batch: seq<Queued>, items: seq<ChecklistItem>, current: seq<ChecklistAnswer>, unitId: string,
                 c: nat, i: nat): (ws: seq<Write>)
    requires i <= |batch|
    ensures |ws| <= |batch| - i
    ensures (forall k :: i <= k < |batch| ==> KnownItem(items, batch[k].itemId).Some?) ==> |ws| == |batch| - i
    ensures forall j :: 0 <= j < |ws| ==> (ws[j].numero.Some? <==> Stored(ws[j]).Some?)
    decreases |batch| - i
  {
    if i == |batch| then []
    else
      var known := KnownItem(items, batch[i].itemId);
      if known.None? then Batch(batch, items, current, unitId, c, i + 1)
      else
        var w := WriteFor(batch[i], known.value, current, unitId, c);
        [w] + Batch(batch, items, current, unitId, if w.numero.Some? then c + 1 else c, i + 1)
  }

  /** The numbered writes carry `c`, `c + 1`, … in write order: no gap and no repeat. */
  ghost predicate NumberedFrom(ws: seq<Write>, c: nat) {
    forall j :: 0 <= j < |ws| && ws[j].numero.Some? ==> ws[j].numero.value == c + NumberedBefore(ws, j)
  }

  lemma NumberedFromCons(w: Write, rest: seq<Write>, c: nat)
    requires w.numero.Some? ==> w.numero.value == c
    requires NumberedFrom(rest, if w.numero.Some? then c + 1 else c)
    ensures NumberedFrom([w] + rest, c)
  {
    var ws := [w] + rest;
    forall j | 0 <= j < |ws| && ws[j].numero.Some? ensures ws[j].numero.value == c + NumberedBefore(ws, j) {
      if j > 0 {
        NumberedBeforeCons(w, rest, j);
        assert ws[j] == rest[j - 1];
      }
    }
  }

  /** The batch numbers its writes with text consecutively from its counter. */
  lemma {:induction false} BatchNumbered(batch: seq<Queued>, items: seq<ChecklistItem>, current: seq<ChecklistAnswer>,
                                         unitId: string, c: nat, i: nat)
    requires i <= |batch|
    ensures NumberedFrom(Batch(batch, items, current, unitId, c, i), c)
    decreases |batch| - i
  {
    if i < |batch| {
      var known := KnownItem(items, batch[i].itemId);
      if known.None? {
        BatchNumbered(batch, items, current, unitId, c, i + 1);
      } else {
        var w := WriteFor(batch[i], known.value, current, unitId, c);
        var c' := if w.numero.Some? then c + 1 else c;
        BatchNumbered(batch, items, current, unitId, c', i + 1);
        NumberedFromCons(w, Batch(batch, items, current, unitId, c', i + 1), c);
      }
    }
  }

  /** An answer that carries a constatação: SIM or NAO with non-blank text. */
  predicate Numbered(a: ChecklistAnswer) {
    (a.resposta == Sim || a.resposta == Nao) && HasText(a.pergunta)
  }

  /** An answer with non-blank text, whatever its value. */
  predicate WithText(a: ChecklistAnswer) {
    HasText(a.pergunta)
  }

  /** SIM or NAO. */
  predicate Answered(a: ChecklistAnswer) {
    a.resposta == Sim || a.resposta == Nao
  }

  /** The batch's first number: numbered answers (first page) plus manual findings (first page) plus one. */
  function BatchStart(answers: seq<ChecklistAnswer>, manuals: seq<ManualFinding>): nat {
    |Filter(Take(answers, AnswerPage), Numbered)| + |Take(manuals, ManualPage)| + 1
  }

  /** processarBatch: the writes for the queued answers, numbered from `BatchStart`. */
  function ProcessBatch(batch: seq<Queued>, items: seq<ChecklistItem>, answers: seq<ChecklistAnswer>,
                        manuals: seq<ManualFinding>, unitId: string): seq<Write> {
    Batch(batch, items, Take(answers, AnswerPage), unitId, BatchStart(answers, manuals), 0)
  }

  /**
    What processarBatch leaves: the answer writes made, and whether an error
    was alerted. The queue is emptied before the first query, so the entries
    whose writes were not made are not queued again.
  */
  datatype BatchRun = BatchRun(writes: seq<Write>, alerted: bool)

  /**
    processarBatch with its `try`: a query or write that throws after
    `fault` writes ends the batch with an alert, keeping the writes made.
  */
  function RunBatch(batch: seq<Queued>, items: seq<ChecklistItem>, answers: seq<ChecklistAnswer>,
                    manuals: seq<ManualFinding>, unitId: string, fault: Option<nat>): (r: BatchRun)
    ensures r.alerted <==> fault.Some? && fault.value <= |ProcessBatch(batch, items, answers, manuals, unitId)|
    ensures r.alerted ==> |r.writes| == fault.value
    ensures r.writes <= ProcessBatch(batch, items, answers, manuals, unitId)
  {
    var full := ProcessBatch(batch, items, answers, manuals, unitId);
    BatchRun(WritesKept(full, fault), ThrowsWithin(fault, |full|))
  }

  /**
    A batch that throws keeps exactly the writes made before the throw, and
    the writes after it are the part of the batch that is lost; a batch with
    no throw makes every write and alerts nothing.
  */
  lemma FailedBatchDropsRest(batch: seq<Queued>, items: seq<ChecklistItem>, answers: seq<ChecklistAnswer>,
                             manuals: seq<ManualFinding>, unitId: string, fault: Option<nat>)
    ensures var full := ProcessBatch(batch, items, answers, manuals, unitId);
      var r := RunBatch(batch, items, answers, manuals, unitId, fault);
      (fault.Some? && fault.value <= |full| ==>
         r.alerted && r.writes == full[..fault.value] && r.writes + full[fault.value..] == full) &&
      (fault.None? ==> r == BatchRun(full, false))
  {
  }

  /**
    The batch numbers its answers with text consecutively after the unit's
    numbered answers and manual findings, in queue order.
  */
  lemma ProcessBatchNumbers(batch: seq<Queued>, items: seq<ChecklistItem>, answers: seq<ChecklistAnswer>,
                            manuals: seq<ManualFinding>, unitId: string, j: nat)
    requires j < |ProcessBatch(batch, items, answers, manuals, unitId)|
    ensures var ws := ProcessBatch(batch, items, answers, manuals, unitId);
      ws[j].numero.Some? ==>
        ws[j].numero.value == |Filter(Take(answers, AnswerPage), Numbered)| + |Take(manuals, ManualPage)| + 1 + NumberedBefore(ws, j)
  {
    BatchNumbered(batch, items, Take(answers, AnswerPage), unitId, BatchStart(answers, manuals), 0);
  }

  /**
    The number a new manual finding gets: answers with text (first page),
    whatever their value, plus manual findings (first page), plus one.
  */
  function ManualNumber(answers: seq<ChecklistAnswer>, manuals: seq<ManualFinding>): nat {
    |Filter(Take(answers, AnswerPage), WithText)| + |Take(manuals, ManualPage)| + 1
  }

  /** Two predicates that agree on a list filter it alike. */
  lemma {:induction false} FilterAgrees<T>(s: seq<T>, p: T -> bool, q: T -> bool)
    requires forall x :: x in s ==> p(x) == q(x)
    ensures Filter(s, p) == Filter(s, q)
    decreases |s|
  {
    if s != [] {
      assert forall x :: x in s[..|s| - 1] ==> x in s;
      FilterAgrees(s[..|s| - 1], p, q);
      assert s[|s| - 1] in s;
    }
  }

  /**
    The manual-finding number and the batch's first number agree as long as
    no NA answer carries text, which holds for every answer the batch writes.
  */
  lemma ManualAndBatchAgree(answers: seq<ChecklistAnswer>, manuals: seq<ManualFinding>)
    requires forall a :: a in answers && a.resposta == Na ==> !HasText(a.pergunta)
    ensures ManualNumber(answers, manuals) == BatchStart(answers, manuals)
  {
    var page := Take(answers, AnswerPage);
    assert forall a :: a in page ==> a in answers;
    FilterAgrees(page, WithText, Numbered);
  }

  /** A filter by a weaker predicate keeps at least as many elements. */
  lemma {:induction false} FilterMonotone<T>(s: seq<T>, p: T -> bool, q: T -> bool)
    requires forall x :: p(x) ==> q(x)
    ensures |Filter(s, p)| <= |Filter(s, q)|
    decreases |s|
  {
    if s != [] {
      FilterMonotone(s[..|s| - 1], p, q);
    }
  }

  /** The totals saved in edit mode. */
  datatype Totals = Totals(totalConstatacoes: nat, totalNcs: nat)

  /** salvarAlteracoesMutation: `total_constatacoes` counts SIM and NAO answers, `total_ncs` the unit's NCs. */
  function SaveEditTotals(answers: seq<ChecklistAnswer>, ncs: seq<NonConformity>): (t: Totals)
    ensures t.totalConstatacoes <= |answers| && t.totalNcs == |ncs|
  {
    Totals(|Filter(answers, Answered)|, |ncs|)
  }

  /**
    The saved total counts every numbered answer, and also the SIM and NAO
    answers without text, which carry no number.
  */
  lemma TotalsCoverNumbered(answers: seq<ChecklistAnswer>, ncs: seq<NonConformity>)
    ensures |Filter(answers, Numbered)| <= SaveEditTotals(answers, ncs).totalConstatacoes
  {
    FilterMonotone(answers, Numbered, Answered);
  }

  predicate NotApplicable(a: ChecklistAnswer) {
    a.resposta == Na
  }

  /** The saved total and the NA answers together account for every answer. */
  lemma {:induction false} TotalsCountAnswered(answers: seq<ChecklistAnswer>, ncs: seq<NonConformity>)
    ensures SaveEditTotals(answers, ncs).totalConstatacoes + |Filter(answers, NotApplicable)| == |answers|
  {
    if answers != [] {
      TotalsCountAnswered(answers[..|answers| - 1], ncs);
    }
  }

  /**
    The error `contadores.R` throws while the counters have not been loaded
    (`contadores` is still null), as V8 words it.
  */
  const CountersNotLoadedMessage: string := "Cannot read properties of null (reading 'R')"

  /**
    adicionarRecomendacaoMutation: refused on a locked page; refused with a
    TypeError while the counters are not loaded (`offsetR` none); otherwise a
    manual recommendation numbered after the earlier units' recommendations
    (`contadores.R`) and this unit's.
  */
  function AddRecommendation(f: Option<Inspection>, modoEdicao: bool, offsetR: Option<int>, unitRecs: seq<Recommendation>,
                             unitId: string, newId: string, texto: string): (r: Result<Recommendation, string>)
    ensures r.Err? <==> PageLocked(f, modoEdicao) || offsetR.None?
    ensures r.Err? ==> r.error == (if PageLocked(f, modoEdicao) then PageLockedMessage else CountersNotLoadedMessage)
    ensures r.Ok? ==> r.value.unitId == unitId && r.value.origem == FromManual && r.value.descricao == Some(texto)
  {
    if PageLocked(f, modoEdicao) then Err(PageLockedMessage)
    else if offsetR.None? then Err(CountersNotLoadedMessage)
    else Ok(Recommendation(newId, unitId, Some(Label("R", offsetR.value + |unitRecs| + 1)), Some(texto), FromManual))
  }

  /**
    When the unit's recommendations are R(offset + 1) … R(offset + n), the
    new one is R(offset + n + 1): the next label, and none of the existing.
  */
  lemma RecommendationContinues(f: Option<Inspection>, modoEdicao: bool, offsetR: int, unitRecs: seq<Recommendation>,
                                unitId: string, newId: string, texto: string)
    requires !PageLocked(f, modoEdicao)
    requires forall j :: 0 <= j < |unitRecs| ==> unitRecs[j].numero == Some(Label("R", offsetR + 1 + j))
    ensures var r := AddRecommendation(f, modoEdicao, Some(offsetR), unitRecs, unitId, newId, texto);
      && r.Ok? && r.value.numero == Some(Label("R", offsetR + |unitRecs| + 1))
      && forall j :: 0 <= j < |unitRecs| ==> unitRecs[j].numero != r.value.numero
  {
    var next := offsetR + |unitRecs| + 1;
    forall j | 0 <= j < |unitRecs| ensures unitRecs[j].numero != Some(Label("R", next)) {
      LabelInjective("R", offsetR + 1 + j, next);
    }
  }

  /** What the manual-finding form submits. */
  datatype ManualInput = ManualInput(descricao: Option<string>, geraNc: bool)

  /** A manual-finding write: an update of the one being edited, or a new one. */
  datatype ManualWrite =
    | UpdateManual(id: string, descricao: Option<string>, geraNc: bool)
    | CreateManual(finding: ManualFinding)

  /**
    adicionarConstatacaoManualMutation: refused on a locked page. Editing
    updates the description (with its trailing ';') and `gera_nc`; a new
    finding is numbered after the unit's answers with text and its manual
    findings, and ordered by the creation time.
  */
  function SaveManualFinding(f: Option<Inspection>, modoEdicao: bool, editing: Option<ManualFinding>, data: ManualInput,
                             answers: seq<ChecklistAnswer>, manuals: seq<ManualFinding>, unitId: string,
                             newId: string, now: int): (r: Result<ManualWrite, string>)
    ensures r.Err? <==> PageLocked(f, modoEdicao)
    ensures r.Err? ==> r.error == PageLockedMessage
    ensures r.Ok? ==> (r.value.UpdateManual? <==> editing.Some?)
    ensures r.Ok? && editing.Some? ==> r.value.id == editing.value.id && r.value.geraNc == data.geraNc
    ensures r.Ok? && editing.None? ==>
      var m := r.value.finding;
      m.unitId == unitId && m.geraNc == data.geraNc && m.ordem == now
      && m.numero == Some(Label("C", ManualNumber(answers, manuals)))
  {
    if PageLocked(f, modoEdicao) then Err(PageLockedMessage)
    else
      var descricao := BatchCascade.FormatPergunta(data.descricao);
      if editing.Some? then Ok(UpdateManual(editing.value.id, descricao, data.geraNc))
      else
        Ok(CreateManual(ManualFinding(newId, unitId, Some(Label("C", ManualNumber(answers, manuals))), descricao,
                                      data.geraNc, None, None, None, now)))
  }

  /** A saved description, new or edited, is missing or empty, or ends with ';' once trimmed. */
  lemma ManualDescriptionEndsWithSemicolon(f: Option<Inspection>, modoEdicao: bool, editing: Option<ManualFinding>,
                                           data: ManualInput, answers: seq<ChecklistAnswer>, manuals: seq<ManualFinding>,
                                           unitId: string, newId: string, now: int)
    requires !PageLocked(f, modoEdicao)
    ensures var r := SaveManualFinding(f, modoEdicao, editing, data, answers, manuals, unitId, newId, now);
      var d := if r.value.UpdateManual? then r.value.descricao else r.value.finding.descricao;
      !Truthy(d) || EndsWith(Trim(d.value), ";")
  {
    BatchCascade.FormatPerguntaEndsWithSemicolon(data.descricao);
  }

  /** The cascade the page asks the server for when a manual finding is deleted. */
  datatype CascadeCall = CascadeCall(constatacaoId: string, unitId: string)

  /** excluirConstatacaoManualMutation: refused on a locked page; otherwise the server's cascade is invoked. */
  function DeleteManualFinding(f: Option<Inspection>, modoEdicao: bool, constatacaoId: string, unitId: string): (r: Result<CascadeCall, string>)
    ensures r.Err? <==> PageLocked(f, modoEdicao)
    ensures r.Err? ==> r.error == PageLockedMessage
    ensures r.Ok? ==> r.value == CascadeCall(constatacaoId, unitId)
  {
    if PageLocked(f, modoEdicao) then Err(PageLockedMessage) else Ok(CascadeCall(constatacaoId, unitId))
  }

  /**
    On a finalised inspection the four mutations are refused before any
    write, and edit mode lifts the lock for all of them.
  */
  lemma LockCoversMutations(f: Option<Inspection>, modoEdicao: bool, queue: seq<Queued>, entry: Queued, offsetR: Option<int>,
                            unitRecs: seq<Recommendation>, unitId: string, newId: string, texto: string,
                            editing: Option<ManualFinding>, data: ManualInput, answers: seq<ChecklistAnswer>,
                            manuals: seq<ManualFinding>, now: int, constatacaoId: string)
    ensures f.Some? && f.value.status == Finalizada && !modoEdicao ==>
      && SaveAnswer(f, modoEdicao, queue, entry).Err?
      && AddRecommendation(f, modoEdicao, offsetR, unitRecs, unitId, newId, texto).Err?
      && SaveManualFinding(f, modoEdicao, editing, data, answers, manuals, unitId, newId, now).Err?
      && DeleteManualFinding(f, modoEdicao, constatacaoId, unitId).Err?
    ensures modoEdicao || f.None? || f.value.status != Finalizada ==>
      && SaveAnswer(f, modoEdicao, queue, entry).Ok?
      && (AddRecommendation(f, modoEdicao, offsetR, unitRecs, unitId, newId, texto).Ok? <==> offsetR.Some?)
      && SaveManualFinding(f, modoEdicao, editing, data, answers, manuals, unitId, newId, now).Ok?
      && DeleteManualFinding(f, modoEdicao, constatacaoId, unitId).Ok?
  {
  }
}
