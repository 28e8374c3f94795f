/**
  The live cascade of one checklist answer
  (src/components/offline/respostaHandler.jsx, executarRespostaAtomicamente):
  number the constatação, upsert the answer, then create the NC and its
  determination, or retract an NC that is no longer required.

  The remote store enters as the results of the handler's queries for the
  unit (`Remote`), and the ids the store assigns to created records as a
  parameter (`Fresh`).
*/
module LiveCascade {
  import opened Wrappers
  import opened Text
  import opened Entities
  import opened Phrasing
  import opened MaxNumbering

  /** The `data` argument: the chosen answer and the free-text remark. */
  datatype AnswerData = AnswerData(resposta: AnswerValue, observacao: Option<string>)

  /** The fields written to the answer by update or create. */
  datatype AnswerPayload = AnswerPayload(
    unitId: string,
    itemId: string,
    pergunta: string,
    geraNc: bool,
    numero: Option<string>,
    resposta: AnswerValue,
    observacao: Option<string>)

  /** The unit's answers, NCs and determinations as the store's queries return them. */
  datatype Remote = Remote(answers: seq<ChecklistAnswer>, ncs: seq<NonConformity>, dets: seq<Determination>)

  /** Ids the store gives to the answer, NC and determination this call creates. */
  datatype Fresh = Fresh(answerId: string, ncId: string, detId: string)

  datatype LiveWrite =
    | UpdateAnswer(id: string, payload: AnswerPayload)
    | CreateAnswer(id: string, payload: AnswerPayload)
    | CreateNc(nc: NonConformity)
    | CreateDet(det: Determination)
    | DeleteDet(id: string)
    | DeleteNc(id: string)

  /** The returned `{ tipo, ... }`, or the rejection when an awaited call throws. */
  datatype Outcome =
    | NcCriada(ncId: string, numeroNc: string)
    | NcDeletada(ncId: string)
    | SemNc(respostaId: string)
    | Threw

  datatype Execution = Execution(writes: seq<LiveWrite>, outcome: Outcome)

  const DefaultArtigo: string := "regulamento aplicável"

  function ForItem(itemId: string): ChecklistAnswer -> bool {
    (r: ChecklistAnswer) => r.itemId == itemId
  }

  /** The cached answer for the item, as `respostasExistentes.find(...)` returns it. */
  function Existing(cached: seq<ChecklistAnswer>, itemId: string): Option<ChecklistAnswer> {
    Find(cached, ForItem(itemId))
  }

  predicate Answered(v: AnswerValue) {
    v == Sim || v == Nao
  }

  /**
    The constatação number: none for NA; for SIM/NAO the number already on the
    cached answer when it has one, else one above the largest number among
    the unit's stored answers.
  */
  function NumeroConstatacao(v: AnswerValue, existing: Option<ChecklistAnswer>, stored: seq<ChecklistAnswer>): Option<string> {
    if !Answered(v) then None
    else if existing.Some? && Truthy(existing.value.numero) then existing.value.numero
    else Some(Label("C", NextConstatacao(stored)))
  }

  /**
    The constatação text: the SIM or NAO template when it is non-empty;
    otherwise, unless the answer is NA, the question with its first '?'
    removed, trimmed.
  */
  function TextoConstatacao(v: AnswerValue, item: ChecklistItem): string {
    if v == Sim && Truthy(item.textoSim) then item.textoSim.value
    else if v == Nao && Truthy(item.textoNao) then item.textoNao.value
    else if v != Na then Trim(ReplaceFirst(item.pergunta, "?"))
    else ""
  }

  function Payload(unitId: string, itemId: string, item: ChecklistItem, data: AnswerData,
                   existing: Option<ChecklistAnswer>, stored: seq<ChecklistAnswer>): AnswerPayload {
    AnswerPayload(unitId, itemId, TextoConstatacao(data.resposta, item), item.geraNc,
                  NumeroConstatacao(data.resposta, existing, stored), data.resposta,
                  if Truthy(data.observacao) then data.observacao else None)
  }

  /** The id the saved answer has. */
  function RespostaId(existing: Option<ChecklistAnswer>, newIds: Fresh): string {
    if existing.Some? then existing.value.id else newIds.answerId
  }

  /** Update of the cached answer, or create. */
  function SaveAnswer(p: AnswerPayload, existing: Option<ChecklistAnswer>, newIds: Fresh): LiveWrite {
    if existing.Some? then UpdateAnswer(existing.value.id, p) else CreateAnswer(newIds.answerId, p)
  }

  function LinkedTo(respostaId: string): NonConformity -> bool {
    (nc: NonConformity) => nc.respostaId == Some(respostaId)
  }

  function OfNc(ncId: string): Determination -> bool {
    (d: Determination) => d.ncId == Some(ncId)
  }

  /** The NC text: the sentence, then the item's NC text after a space when it has one. */
  function TextoNc(numeroC: Option<string>, item: ChecklistItem): string {
    var artigo := if Truthy(item.artigo) then item.artigo.value else DefaultArtigo;
    var sentence := NcSentenceWithPeriod(numeroC.GetOr("null"), artigo);
    if Truthy(item.textoNc) then sentence + " " + item.textoNc.value else sentence
  }

  /** One delete per determination, in order. */
  function DeleteAll(ds: seq<Determination>): (r: seq<LiveWrite>)
    ensures |r| == |ds|
    ensures forall i :: 0 <= i < |ds| ==> r[i] == DeleteDet(ds[i].id)
  {
    if ds == [] then [] else [DeleteDet(ds[0].id)] + DeleteAll(ds[1..])
  }

  /** The NC is required for a NAO answer to an item that generates NCs. */
  predicate DeveExistirNc(data: AnswerData, item: ChecklistItem) {
    data.resposta == Nao && item.geraNc
  }

  function NumeroNc(remote: Remote): string {
    Label("NC", NextNc(remote.ncs))
  }

  /** Creation of the NC and, when the item has a determination text, of its determination. */
  function CreateCascade(unitId: string, item: ChecklistItem, numeroC: Option<string>, respostaId: string,
                         remote: Remote, newIds: Fresh): (ws: seq<LiveWrite>)
    ensures |ws| >= 1 && ws[0].CreateNc?
    ensures forall k :: 0 <= k < |ws| ==> ws[k].CreateNc? || ws[k].CreateDet?
    ensures |ws| == 2 <==> Truthy(item.textoDet)
    ensures |ws| <= 2 && (|ws| == 2 ==> ws[1].CreateDet?)
  {
    var nc := NonConformity(newIds.ncId, unitId, Some(respostaId), Some(NumeroNc(remote)),
                            Some(if Truthy(item.artigo) then item.artigo.value else ""), Some(TextoNc(numeroC, item)));
    if Truthy(item.textoDet) then
      var det := Determination(newIds.detId, unitId, Some(newIds.ncId), Some(Label("D", NextDet(remote.dets))),
                               DetSentenceLive(NumeroNc(remote), item.textoDet.value), Some(30), None, "pendente");
      [CreateNc(nc), CreateDet(det)]
    else [CreateNc(nc)]
  }

  /**
    Everything after the payload is built, when every store call succeeds:
    save the answer, then create, retract or leave the NC.
  */
  function SaveAndCascade(unitId: string, item: ChecklistItem, data: AnswerData, existing: Option<ChecklistAnswer>,
                          payload: AnswerPayload, remote: Remote, newIds: Fresh): (e: Execution)
    ensures |e.writes| >= 1 && (e.writes[0].UpdateAnswer? || e.writes[0].CreateAnswer?)
    ensures forall k :: 1 <= k < |e.writes| ==> !e.writes[k].UpdateAnswer? && !e.writes[k].CreateAnswer?
  {
    var answerWrite := SaveAnswer(payload, existing, newIds);
    var respostaId := RespostaId(existing, newIds);
    var linked := Find(remote.ncs, LinkedTo(respostaId));
    if DeveExistirNc(data, item) && linked.None? then
      Execution([answerWrite] + CreateCascade(unitId, item, payload.numero, respostaId, remote, newIds),
                NcCriada(newIds.ncId, NumeroNc(remote)))
    else if !DeveExistirNc(data, item) && linked.Some? then
      var ncId := linked.value.id;
      Execution([answerWrite] + DeleteAll(Filter(remote.dets, OfNc(ncId))) + [DeleteNc(ncId)], NcDeletada(ncId))
    else Execution([answerWrite], SemNc(respostaId))
  }

  /**
    executarRespostaAtomicamente. No call is caught: when one throws after
    `fault` writes (the constatação query before any, the NC and
    determination queries after the answer's), the writes made stay and the
    call rejects.
  */
  function Executar(unitId: string, itemId: string, item: ChecklistItem, data: AnswerData,
                    cached: seq<ChecklistAnswer>, remote: Remote, newIds: Fresh, fault: Option<nat>): (e: Execution)
    ensures e.outcome.Threw? <==> fault.Some? && fault.value <= |e.writes|
    ensures e.outcome.Threw? ==> |e.writes| == fault.value
    ensures !e.outcome.Threw? ==> |e.writes| >= 1 && (e.writes[0].UpdateAnswer? || e.writes[0].CreateAnswer?)
  {
    var existing := Existing(cached, itemId);
    var full := SaveAndCascade(unitId, item, data, existing, Payload(unitId, itemId, item, data, existing, remote.answers),
                               remote, newIds);
    if ThrowsWithin(fault, |full.writes|) then Execution(WritesKept(full.writes, fault), Threw) else full
  }

  // ----- the constatação number -----

  /** NA answers carry no number; SIM and NAO answers always carry one. */
  lemma NumberIffAnswered(v: AnswerValue, existing: Option<ChecklistAnswer>, stored: seq<ChecklistAnswer>)
    ensures NumeroConstatacao(v, existing, stored).Some? <==> v != Na
    ensures NumeroConstatacao(v, existing, stored).Some? ==> Truthy(NumeroConstatacao(v, existing, stored))
  {
    if Answered(v) && !(existing.Some? && Truthy(existing.value.numero)) {
      assert Label("C", NextConstatacao(stored)) == "C" + IntToString(NextConstatacao(stored));
    }
  }

  /** Answering again an item whose cached answer has a number keeps that number. */
  lemma RenumberingKeepsExisting(v: AnswerValue, r: ChecklistAnswer, stored: seq<ChecklistAnswer>)
    requires v != Na && Truthy(r.numero)
    ensures NumeroConstatacao(v, Some(r), stored) == r.numero
  {
  }

  /**
    A new number is above every number parsed from the unit's stored
    answers and is one more than the largest; with none it is C1.
  */
  lemma NewNumberIsMaxPlusOne(v: AnswerValue, existing: Option<ChecklistAnswer>, stored: seq<ChecklistAnswer>)
    requires v != Na && !(existing.Some? && Truthy(existing.value.numero))
    ensures var n := NextConstatacao(stored);
      NumeroConstatacao(v, existing, stored) == Some(Label("C", n)) &&
      (forall r, m :: r in stored && ParseConstatacao(r.numero) == Some(m) ==> m < n) &&
      ((forall r :: r in stored ==> ParseConstatacao(r.numero).None?) ==> NumeroConstatacao(v, existing, stored) == Some("C1"))
  {
    forall r, m | r in stored && ParseConstatacao(r.numero) == Some(m)
      ensures m < NextConstatacao(stored)
    {
      NextExceedsEveryExisting(stored, r, m);
    }
    if forall r :: r in stored ==> ParseConstatacao(r.numero).None? {
      FirstConstatacaoIsC1(stored);
    }
  }

  // ----- the constatação text -----

  /** The question-derived text is trimmed, and a question without '?' is only trimmed. */
  lemma QuestionTextIsTrimmed(v: AnswerValue, item: ChecklistItem)
    requires v != Na && !(v == Sim && Truthy(item.textoSim)) && !(v == Nao && Truthy(item.textoNao))
    ensures TextoConstatacao(v, item) == Trim(ReplaceFirst(item.pergunta, "?"))
    ensures Trim(TextoConstatacao(v, item)) == TextoConstatacao(v, item)
    ensures '?' !in item.pergunta ==> TextoConstatacao(v, item) == Trim(item.pergunta)
  {
    TrimIdempotent(ReplaceFirst(item.pergunta, "?"));
    ReplaceFirstAbsent(item.pergunta, '?');
  }

  /** NA gives the empty text; a non-empty template of the chosen answer is used verbatim. */
  lemma TemplateTextWins(v: AnswerValue, item: ChecklistItem)
    ensures v == Na ==> TextoConstatacao(v, item) == ""
    ensures v == Sim && Truthy(item.textoSim) ==> TextoConstatacao(v, item) == item.textoSim.value
    ensures v == Nao && Truthy(item.textoNao) ==> TextoConstatacao(v, item) == item.textoNao.value
  {
  }

  // ----- upsert -----

  /** The cached answer found is the item's; none found means the cache has no answer for it. */
  lemma ExistingIsForItem(cached: seq<ChecklistAnswer>, itemId: string)
    ensures Existing(cached, itemId).Some? ==>
      Existing(cached, itemId).value in cached && Existing(cached, itemId).value.itemId == itemId
    ensures Existing(cached, itemId).None? ==> forall r :: r in cached ==> r.itemId != itemId
  {
    if Existing(cached, itemId).None? {
      forall r | r in cached ensures r.itemId != itemId {
        var i :| 0 <= i < |cached| && cached[i] == r;
        assert !ForItem(itemId)(cached[i]);
      }
    }
  }

  /**
    Exactly one answer write, first: an update of the cached answer when
    there is one, otherwise a create, carrying the payload; nothing else
    writes an answer.
  */
  lemma AnswerIsUpserted(unitId: string, item: ChecklistItem, data: AnswerData, existing: Option<ChecklistAnswer>,
                         payload: AnswerPayload, remote: Remote, newIds: Fresh)
    ensures var e := SaveAndCascade(unitId, item, data, existing, payload, remote, newIds);
      (e.writes[0].UpdateAnswer? <==> existing.Some?) &&
      e.writes[0].id == RespostaId(existing, newIds) &&
      e.writes[0].payload == payload
  {
  }

  // ----- NC creation -----

  predicate CreatesNc(ws: seq<LiveWrite>) {
    exists k :: 0 <= k < |ws| && ws[k].CreateNc?
  }

  predicate CreatesDet(ws: seq<LiveWrite>) {
    exists k :: 0 <= k < |ws| && ws[k].CreateDet?
  }

  predicate DeletesNc(ws: seq<LiveWrite>) {
    exists k :: 0 <= k < |ws| && ws[k].DeleteNc?
  }

  /** No stored NC links to the answer exactly when the search finds none. */
  lemma LinkedSearch(ncs: seq<NonConformity>, rid: string)
    ensures Find(ncs, LinkedTo(rid)).None? <==> forall nc :: nc in ncs ==> nc.respostaId != Some(rid)
    ensures Find(ncs, LinkedTo(rid)).Some? ==>
      Find(ncs, LinkedTo(rid)).value in ncs && Find(ncs, LinkedTo(rid)).value.respostaId == Some(rid)
  {
    if Find(ncs, LinkedTo(rid)).None? {
      forall nc | nc in ncs ensures nc.respostaId != Some(rid) {
        var i :| 0 <= i < |ncs| && ncs[i] == nc;
        assert !LinkedTo(rid)(ncs[i]);
      }
    }
  }

  /**
    An NC is created exactly when the answer is NAO, the item generates NCs
    and no stored NC is linked to the saved answer yet.
  */
  lemma NcCreatedIff(unitId: string, item: ChecklistItem, data: AnswerData, existing: Option<ChecklistAnswer>,
                     payload: AnswerPayload, remote: Remote, newIds: Fresh)
    ensures var e := SaveAndCascade(unitId, item, data, existing, payload, remote, newIds);
      CreatesNc(e.writes) <==>
        data.resposta == Nao && item.geraNc &&
        forall nc :: nc in remote.ncs ==> nc.respostaId != Some(RespostaId(existing, newIds))
  {
    var e := SaveAndCascade(unitId, item, data, existing, payload, remote, newIds);
    var rid := RespostaId(existing, newIds);
    LinkedSearch(remote.ncs, rid);
    var linked := Find(remote.ncs, LinkedTo(rid));
    if DeveExistirNc(data, item) && linked.None? {
      assert e.writes[1].CreateNc?;
    } else if !DeveExistirNc(data, item) && linked.Some? {
      DeletionShape(unitId, item, data, existing, payload, remote, newIds);
    }
  }

  /** The NC text starts with the sentence built from the constatação number and the article or the default. */
  lemma TextoNcStartsWithSentence(numeroC: Option<string>, item: ChecklistItem)
    ensures StartsWith(TextoNc(numeroC, item),
      NcSentenceWithPeriod(numeroC.GetOr("null"), if Truthy(item.artigo) then item.artigo.value else DefaultArtigo))
  {
    var sentence := NcSentenceWithPeriod(numeroC.GetOr("null"), if Truthy(item.artigo) then item.artigo.value else DefaultArtigo);
    var text := TextoNc(numeroC, item);
    if Truthy(item.textoNc) {
      assert text == sentence + (" " + item.textoNc.value);
    }
    assert text[..|sentence|] == sentence;
  }

  /**
    The created NC belongs to the saved answer, its number is above every
    stored NC number, and its text starts with the sentence naming the
    constatação and the article.
  */
  lemma CreatedNc(unitId: string, item: ChecklistItem, data: AnswerData, existing: Option<ChecklistAnswer>,
                  payload: AnswerPayload, remote: Remote, newIds: Fresh)
    requires DeveExistirNc(data, item)
    requires Find(remote.ncs, LinkedTo(RespostaId(existing, newIds))).None?
    ensures var e := SaveAndCascade(unitId, item, data, existing, payload, remote, newIds);
      e.outcome == NcCriada(newIds.ncId, Label("NC", NextNc(remote.ncs))) &&
      e.writes[1].CreateNc? && e.writes[1].nc.id == newIds.ncId &&
      e.writes[1].nc.numero == Some(Label("NC", NextNc(remote.ncs))) &&
      e.writes[1].nc.respostaId == Some(RespostaId(existing, newIds)) &&
      e.writes[1].nc.descricao == Some(TextoNc(payload.numero, item)) &&
      forall nc, m :: nc in remote.ncs && NcOf(nc) == Some(m) ==> m < NextNc(remote.ncs)
  {
    forall nc, m | nc in remote.ncs && NcOf(nc) == Some(m) ensures m < NextNc(remote.ncs) {
      NextAboveAll(remote.ncs, NcOf, nc, m);
    }
  }

  /** A determination is created exactly when the NC is and the item has a determination text. */
  lemma DeterminationIffNc(unitId: string, item: ChecklistItem, data: AnswerData, existing: Option<ChecklistAnswer>,
                           payload: AnswerPayload, remote: Remote, newIds: Fresh)
    ensures var e := SaveAndCascade(unitId, item, data, existing, payload, remote, newIds);
      CreatesDet(e.writes) <==> CreatesNc(e.writes) && Truthy(item.textoDet)
  {
    var e := SaveAndCascade(unitId, item, data, existing, payload, remote, newIds);
    var rid := RespostaId(existing, newIds);
    var linked := Find(remote.ncs, LinkedTo(rid));
    if DeveExistirNc(data, item) && linked.None? {
      var cc := CreateCascade(unitId, item, payload.numero, rid, remote, newIds);
      assert e.writes == [SaveAnswer(payload, existing, newIds)] + cc;
      assert e.writes[1].CreateNc?;
      if Truthy(item.textoDet) {
        assert e.writes[2].CreateDet?;
      } else {
        assert |e.writes| == 2;
      }
    } else if !DeveExistirNc(data, item) && linked.Some? {
      DeletionShape(unitId, item, data, existing, payload, remote, newIds);
    }
  }

  /**
    A created determination follows its NC: it points at the new NC, reads
    "Para sanar {NC}, " followed by the text with a lower-case first letter,
    and takes a D number above every one in use.
  */
  lemma DeterminationFollowsNc(unitId: string, item: ChecklistItem, data: AnswerData, existing: Option<ChecklistAnswer>,
                               payload: AnswerPayload, remote: Remote, newIds: Fresh)
    ensures var e := SaveAndCascade(unitId, item, data, existing, payload, remote, newIds);
      CreatesDet(e.writes) ==>
        |e.writes| == 3 && e.writes[1].CreateNc? && e.writes[2].CreateDet? &&
        e.writes[2].det.ncId == Some(e.writes[1].nc.id) &&
        e.writes[1].nc.numero == Some(Label("NC", NextNc(remote.ncs))) &&
        e.writes[2].det.numero == Some(Label("D", NextDet(remote.dets))) &&
        e.writes[2].det.descricao == DetSentenceLive(e.writes[1].nc.numero.value, item.textoDet.value) &&
        e.writes[2].det.prazoDias == Some(30) &&
        forall d, m :: d in remote.dets && DetOf(d) == Some(m) ==> m < NextDet(remote.dets)
  {
    var e := SaveAndCascade(unitId, item, data, existing, payload, remote, newIds);
    DeterminationIffNc(unitId, item, data, existing, payload, remote, newIds);
    if CreatesDet(e.writes) {
      var linked := Find(remote.ncs, LinkedTo(RespostaId(existing, newIds)));
      assert DeveExistirNc(data, item) && linked.None? by {
        if !DeveExistirNc(data, item) && linked.Some? {
          DeletionShape(unitId, item, data, existing, payload, remote, newIds);
        }
      }
      forall d, m | d in remote.dets && DetOf(d) == Some(m) ensures m < NextDet(remote.dets) {
        NextAboveAll(remote.dets, DetOf, d, m);
      }
    }
  }

  // ----- retraction -----

  /** The writes of a retraction: the answer, one delete per linked determination, the NC delete. */
  lemma DeletionShape(unitId: string, item: ChecklistItem, data: AnswerData, existing: Option<ChecklistAnswer>,
                      payload: AnswerPayload, remote: Remote, newIds: Fresh)
    requires !DeveExistirNc(data, item)
    requires Find(remote.ncs, LinkedTo(RespostaId(existing, newIds))).Some?
    ensures var e := SaveAndCascade(unitId, item, data, existing, payload, remote, newIds);
      var nc := Find(remote.ncs, LinkedTo(RespostaId(existing, newIds))).value;
      var linkedDets := Filter(remote.dets, OfNc(nc.id));
      e.outcome == NcDeletada(nc.id) &&
      |e.writes| == |linkedDets| + 2 &&
      e.writes[|e.writes| - 1] == DeleteNc(nc.id) &&
      (forall k :: 1 <= k < |e.writes| ==> e.writes[k].DeleteDet? || e.writes[k].DeleteNc?) &&
      (forall i :: 0 <= i < |linkedDets| ==> e.writes[i + 1] == DeleteDet(linkedDets[i].id))
  {
    var e := SaveAndCascade(unitId, item, data, existing, payload, remote, newIds);
    var nc := Find(remote.ncs, LinkedTo(RespostaId(existing, newIds))).value;
    var dels := DeleteAll(Filter(remote.dets, OfNc(nc.id)));
    assert e.writes == [e.writes[0]] + dels + [DeleteNc(nc.id)];
    assert forall k :: 1 <= k < |e.writes| - 1 ==> e.writes[k] == dels[k - 1];
  }

  /**
    An NC linked to the answer that is no longer required is deleted after
    every stored determination of that NC, and the result is 'nc_deletada'.
  */
  lemma RetractionDeletesDeterminationsFirst(unitId: string, item: ChecklistItem, data: AnswerData,
                                             existing: Option<ChecklistAnswer>, payload: AnswerPayload,
                                             remote: Remote, newIds: Fresh)
    requires !DeveExistirNc(data, item)
    requires Find(remote.ncs, LinkedTo(RespostaId(existing, newIds))).Some?
    ensures var e := SaveAndCascade(unitId, item, data, existing, payload, remote, newIds);
      var nc := Find(remote.ncs, LinkedTo(RespostaId(existing, newIds))).value;
      var linkedDets := Filter(remote.dets, OfNc(nc.id));
      nc in remote.ncs && nc.respostaId == Some(RespostaId(existing, newIds)) &&
      e.outcome == NcDeletada(nc.id) && !CreatesNc(e.writes) &&
      e.writes[|e.writes| - 1] == DeleteNc(nc.id) &&
      (forall i :: 0 <= i < |linkedDets| ==>
         e.writes[i + 1] == DeleteDet(linkedDets[i].id) && linkedDets[i].ncId == Some(nc.id))
  {
    var e := SaveAndCascade(unitId, item, data, existing, payload, remote, newIds);
    DeletionShape(unitId, item, data, existing, payload, remote, newIds);
    LinkedSearch(remote.ncs, RespostaId(existing, newIds));
    var nc := Find(remote.ncs, LinkedTo(RespostaId(existing, newIds))).value;
    var linkedDets := Filter(remote.dets, OfNc(nc.id));
    forall i | 0 <= i < |linkedDets| ensures linkedDets[i].ncId == Some(nc.id) {
      assert OfNc(nc.id)(linkedDets[i]);
    }
  }

  /**
    Otherwise — an NC already linked to a NAO answer, or none and none
    required — only the answer is written and the result is 'sem_nc'.
  */
  lemma NothingElseWritten(unitId: string, item: ChecklistItem, data: AnswerData, existing: Option<ChecklistAnswer>,
                           payload: AnswerPayload, remote: Remote, newIds: Fresh)
    requires DeveExistirNc(data, item) <==> Find(remote.ncs, LinkedTo(RespostaId(existing, newIds))).Some?
    ensures var e := SaveAndCascade(unitId, item, data, existing, payload, remote, newIds);
      |e.writes| == 1 && e.outcome == SemNc(RespostaId(existing, newIds))
  {
  }

  /** For a NAO answer the payload carries a constatação number, so the NC text never prints "null". */
  lemma NaoPayloadIsNumbered(unitId: string, itemId: string, item: ChecklistItem, data: AnswerData,
                             existing: Option<ChecklistAnswer>, stored: seq<ChecklistAnswer>)
    requires data.resposta == Nao
    ensures var p := Payload(unitId, itemId, item, data, existing, stored);
      p.numero.Some? && Truthy(p.numero) && p.resposta == Nao && p.geraNc == item.geraNc
  {
    NumberIffAnswered(data.resposta, existing, stored);
  }

  /**
    A call that throws keeps exactly the writes made before it, in order,
    and the call rejects; when none throws, the cascade stands.
  */
  lemma ThrowKeepsEarlierWrites(unitId: string, itemId: string, item: ChecklistItem, data: AnswerData,
                                cached: seq<ChecklistAnswer>, remote: Remote, newIds: Fresh, fault: Option<nat>)
    ensures var existing := Existing(cached, itemId);
      var full := SaveAndCascade(unitId, item, data, existing, Payload(unitId, itemId, item, data, existing, remote.answers),
                                 remote, newIds);
      var e := Executar(unitId, itemId, item, data, cached, remote, newIds, fault);
      (ThrowsWithin(fault, |full.writes|) ==> e == Execution(full.writes[..fault.value], Threw)) &&
      (!ThrowsWithin(fault, |full.writes|) ==> e == full)
  {
  }
}
