/**
  `createRespostaComNCeDeterminacao` of functions/dataService.ts: the
  local-first cascade that stores a checklist answer and, for a 'NAO' answer
  to an item that generates NCs, its NC, its determination and, when the item
  has a recommendation text, its recommendation. Each record goes through
  `create`, so each one also enqueues a 'create' operation.

  The record ids and queue ids `crypto.randomUUID()` would make are given up
  front. Since `create` keeps the id it is given when the data has none, the
  answer's id is known before the NC is composed, and the NC's before the
  determination is.
*/
module AnswerCascade {
  import opened Wrappers
  import opened Text
  import opened Phrasing
  import opened Records
  import opened LocalStore
  import EditNc

  /** The fields of `itemData` the cascade reads. */
  datatype ItemData = ItemData(
    geraNc: bool,                  // gera_nc
    textoNc: Option<string>,       // texto_nc
    artigo: Option<string>,        // artigo_portaria
    textoDet: Option<string>,      // texto_determinacao
    textoRec: Option<string>)      // texto_recomendacao

  /** The fields of `respostaData` the cascade reads. */
  datatype RespostaData = RespostaData(
    textoConstatacao: Option<string>,
    resposta: Value,
    numeroConstatacao: Option<string>,
    numeroNc: Option<string>,
    numeroDeterminacao: Option<string>,
    numeroRecomendacao: Option<string>,
    observacao: Option<string>)

  /** The fresh ids of the records and of their queue entries. */
  datatype Ids = Ids(
    answer: string, nc: string, det: string, rec: string,
    qAnswer: string, qNc: string, qDet: string, qRec: string)

  /** The queue ids are new and pairwise distinct. */
  predicate FreshQueueIds(db: Db, ids: Ids) {
    && ids.qAnswer !in db.queue && ids.qNc !in db.queue && ids.qDet !in db.queue && ids.qRec !in db.queue
    && ids.qAnswer != ids.qNc && ids.qAnswer != ids.qDet && ids.qAnswer != ids.qRec
    && ids.qNc != ids.qDet && ids.qNc != ids.qRec && ids.qDet != ids.qRec
  }

  /** `itemData.gera_nc && respostaData.resposta === 'NAO'` */
  predicate GeneratesNc(item: ItemData, resp: RespostaData) {
    item.geraNc && resp.resposta == Str("NAO")
  }

  /** A recommendation is created too: `if (itemData.texto_recomendacao)`. */
  predicate GeneratesRec(item: ItemData, resp: RespostaData) {
    GeneratesNc(item, resp) && Truthy(item.textoRec)
  }

  /** The answer's data. */
  function AnswerData(unidadeId: Value, itemId: Value, item: ItemData, resp: RespostaData): (r: Record)
    ensures UnidadeFiscalizadaId in r && r[UnidadeFiscalizadaId] == unidadeId
  {
    map[UnidadeFiscalizadaId := unidadeId,
        ItemChecklistId := itemId,
        Pergunta := Str(OrElse(resp.textoConstatacao, "")),
        Resposta := resp.resposta,
        GeraNc := Bool(item.geraNc),
        NumeroConstatacao := OptStr(resp.numeroConstatacao),
        Observacao := Str(OrElse(resp.observacao, ""))]
  }

  /** The NC's text: the item's own, or the sentence naming the constatação and the article. */
  function NcDescricao(item: ItemData, resp: RespostaData): string {
    if Truthy(item.textoNc) then item.textoNc.value
    else NcSentenceLower(Show(resp.numeroConstatacao), OrElse(item.artigo, UnspecifiedArtigo))
  }

  /** The NC's data; `respostaId` is the answer's id. */
  function NcData(unidadeId: Value, respostaId: Value, item: ItemData, resp: RespostaData): (r: Record)
    ensures UnidadeFiscalizadaId in r && r[UnidadeFiscalizadaId] == unidadeId
  {
    map[UnidadeFiscalizadaId := unidadeId,
        RespostaChecklistId := respostaId,
        NumeroNc := OptStr(resp.numeroNc),
        ArtigoPortaria := Str(OrElse(item.artigo, "")),
        Descricao := Str(NcDescricao(item, resp)),
        Fotos := Arr([])]
  }

  /** The determination's text: "Para sanar a {NC} {texto}. Prazo: 30 dias." */
  function DetDescricao(item: ItemData, resp: RespostaData): string {
    DetSentenceWithPrazo(Show(resp.numeroNc), OrElse(item.textoDet, DefaultDetText))
  }

  /** The determination's data; `ncId` is the NC's id. */
  function DetData(unidadeId: Value, ncId: Value, item: ItemData, resp: RespostaData): (r: Record)
    ensures UnidadeFiscalizadaId in r && r[UnidadeFiscalizadaId] == unidadeId
  {
    map[UnidadeFiscalizadaId := unidadeId,
        NaoConformidadeId := ncId,
        NumeroDeterminacao := OptStr(resp.numeroDeterminacao),
        Descricao := Str(DetDescricao(item, resp)),
        PrazoDias := Num(30),
        Status := Str("pendente")]
  }

  /** The recommendation's data. */
  function RecData(unidadeId: Value, item: ItemData, resp: RespostaData): (r: Record)
    ensures UnidadeFiscalizadaId in r && r[UnidadeFiscalizadaId] == unidadeId
  {
    map[UnidadeFiscalizadaId := unidadeId,
        NumeroRecomendacao := OptStr(resp.numeroRecomendacao),
        Descricao := OptStr(item.textoRec),
        Origem := Str("checklist")]
  }

  /** What the cascade leaves behind: the database and the answer it returns. */
  datatype Outcome = Outcome(db: Db, resposta: Record)

  /** A table the cascade writes to. */
  predicate CascadeTable(t: TableId) {
    t == RespostasChecklist || t == NaoConformidades || t == Determinacoes || t == Recomendacoes
  }

  /** The queue ids the cascade uses, one per record it creates. */
  predicate UsedQueueId(k: string, item: ItemData, resp: RespostaData, ids: Ids) {
    || k == ids.qAnswer
    || (GeneratesNc(item, resp) && (k == ids.qNc || k == ids.qDet))
    || (GeneratesRec(item, resp) && k == ids.qRec)
  }

  /** The data carries no id, so each record is stored under its local id. */
  lemma DataCarriesNoId(unidadeId: Value, itemId: Value, respostaId: Value, ncId: Value, item: ItemData, resp: RespostaData)
    ensures Id !in AnswerData(unidadeId, itemId, item, resp)
    ensures Id !in NcData(unidadeId, respostaId, item, resp)
    ensures Id !in DetData(unidadeId, ncId, item, resp)
    ensures Id !in RecData(unidadeId, item, resp)
  {
  }

  /**
    `create` of data that carries no id, when `cond` holds: the record goes
    under the local id. Nothing happens otherwise.
  */
  method CreateIf(cond: bool, db: Db, t: TableId, name: string, data: Record, localId: string, queueId: string, now: int)
    returns (d: Db)
    requires cond ==> queueId !in db.queue && Id !in data
    ensures Table(d, t) == if cond then Table(db, t)[Str(localId) := CreatedRecord(data, localId, now)] else Table(db, t)
    ensures OtherTablesKept(db, d, t)
    ensures forall k :: k in d.queue <==> k in db.queue || (cond && k == queueId)
  {
    if cond {
      CreatedRecordUnit(data, localId, now);
      d := CreateIn(db, t, name, data, localId, queueId, now).db;
    } else {
      d := db;
    }
  }

  /**
    The records that follow the answer: the NC and the determination when
    `g` holds, and the recommendation when `gr` holds too.
  */
  method Followers(db: Db, nc: Record, det: Record, rec: Record, g: bool, gr: bool, ids: Ids, now: int) returns (d: Db)
    requires g ==> ids.qNc !in db.queue && ids.qDet !in db.queue && ids.qNc != ids.qDet && Id !in nc && Id !in det
    requires g && gr ==> ids.qRec !in db.queue && ids.qRec != ids.qNc && ids.qRec != ids.qDet && Id !in rec
    ensures Table(d, NaoConformidades) ==
      if g then Table(db, NaoConformidades)[Str(ids.nc) := CreatedRecord(nc, ids.nc, now)] else Table(db, NaoConformidades)
    ensures Table(d, Determinacoes) ==
      if g then Table(db, Determinacoes)[Str(ids.det) := CreatedRecord(det, ids.det, now)] else Table(db, Determinacoes)
    ensures Table(d, Recomendacoes) ==
      if g && gr then Table(db, Recomendacoes)[Str(ids.rec) := CreatedRecord(rec, ids.rec, now)] else Table(db, Recomendacoes)
    ensures forall u :: u != NaoConformidades && u != Determinacoes && u != Recomendacoes ==> Table(d, u) == Table(db, u)
    ensures forall k :: k in d.queue <==> k in db.queue || (g && (k == ids.qNc || k == ids.qDet)) || (g && gr && k == ids.qRec)
  {
    var d2 := CreateIf(g, db, NaoConformidades, "NaoConformidade", nc, ids.nc, ids.qNc, now);
    var d3 := CreateIf(g, d2, Determinacoes, "Determinacao", det, ids.det, ids.qDet, now);
    d := CreateIf(g && gr, d3, Recomendacoes, "Recomendacao", rec, ids.rec, ids.qRec, now);
    assert Table(d, NaoConformidades) == Table(d2, NaoConformidades) by {
      assert Table(d3, NaoConformidades) == Table(d2, NaoConformidades);
    }
    assert Table(d, Determinacoes) == Table(d3, Determinacoes);
    assert Table(d2, Determinacoes) == Table(db, Determinacoes);
    assert Table(d3, Recomendacoes) == Table(db, Recomendacoes) by {
      assert Table(d2, Recomendacoes) == Table(db, Recomendacoes);
    }
  }

  /** The answer and then its followers, for data that carries no id. */
  method AnswerAndFollowers(db: Db, answer: Record, nc: Record, det: Record, rec: Record, g: bool, gr: bool, ids: Ids, now: int)
    returns (d: Db)
    requires FreshQueueIds(db, ids) && Id !in answer && Id !in nc && Id !in det && Id !in rec
    ensures Table(d, RespostasChecklist) == Table(db, RespostasChecklist)[Str(ids.answer) := CreatedRecord(answer, ids.answer, now)]
    ensures Table(d, NaoConformidades) ==
      if g then Table(db, NaoConformidades)[Str(ids.nc) := CreatedRecord(nc, ids.nc, now)] else Table(db, NaoConformidades)
    ensures Table(d, Determinacoes) ==
      if g then Table(db, Determinacoes)[Str(ids.det) := CreatedRecord(det, ids.det, now)] else Table(db, Determinacoes)
    ensures Table(d, Recomendacoes) ==
      if g && gr then Table(db, Recomendacoes)[Str(ids.rec) := CreatedRecord(rec, ids.rec, now)] else Table(db, Recomendacoes)
    ensures forall u :: !CascadeTable(u) ==> Table(d, u) == Table(db, u)
    ensures forall k :: k in d.queue <==>
      k in db.queue || k == ids.qAnswer || (g && (k == ids.qNc || k == ids.qDet)) || (g && gr && k == ids.qRec)
  {
    var d1 := CreateIf(true, db, RespostasChecklist, "RespostaChecklist", answer, ids.answer, ids.qAnswer, now);
    assert Table(d1, NaoConformidades) == Table(db, NaoConformidades);
    assert Table(d1, Determinacoes) == Table(db, Determinacoes);
    assert Table(d1, Recomendacoes) == Table(db, Recomendacoes);
    d := Followers(d1, nc, det, rec, g, gr, ids, now);
  }

  /**
    createRespostaComNCeDeterminacao: the answer is created first; an NC and
    its determination follow only for a 'NAO' answer to an item that
    generates NCs, the NC pointing at the answer and the determination at the
    NC, and a recommendation only when the item also has a recommendation
    text. No other table changes, every record created has its queue entry,
    and the answer is returned.
  */
  method CreateRespostaComNcEDeterminacao(db: Db, unidadeId: Value, itemId: Value, item: ItemData, resp: RespostaData,
                                           ids: Ids, now: int) returns (o: Outcome)
    requires FreshQueueIds(db, ids)
    ensures o.resposta == CreatedRecord(AnswerData(unidadeId, itemId, item, resp), ids.answer, now)
    ensures Table(o.db, RespostasChecklist) == Table(db, RespostasChecklist)[Str(ids.answer) := o.resposta]
    ensures Table(o.db, NaoConformidades) ==
      if GeneratesNc(item, resp)
      then Table(db, NaoConformidades)[Str(ids.nc) := CreatedRecord(NcData(unidadeId, Str(ids.answer), item, resp), ids.nc, now)]
      else Table(db, NaoConformidades)
    ensures Table(o.db, Determinacoes) ==
      if GeneratesNc(item, resp)
      then Table(db, Determinacoes)[Str(ids.det) := CreatedRecord(DetData(unidadeId, Str(ids.nc), item, resp), ids.det, now)]
      else Table(db, Determinacoes)
    ensures Table(o.db, Recomendacoes) ==
      if GeneratesRec(item, resp)
      then Table(db, Recomendacoes)[Str(ids.rec) := CreatedRecord(RecData(unidadeId, item, resp), ids.rec, now)]
      else Table(db, Recomendacoes)
    ensures forall u :: !CascadeTable(u) ==> Table(o.db, u) == Table(db, u)
    ensures forall k :: k in o.db.queue <==> k in db.queue || UsedQueueId(k, item, resp, ids)
  {
    var answer := AnswerData(unidadeId, itemId, item, resp);
    DataCarriesNoId(unidadeId, itemId, Str(ids.answer), Str(ids.nc), item, resp);
    var d := AnswerAndFollowers(db, answer, NcData(unidadeId, Str(ids.answer), item, resp), DetData(unidadeId, Str(ids.nc), item, resp),
                                RecData(unidadeId, item, resp), GeneratesNc(item, resp), Truthy(item.textoRec), ids, now);
    o := Outcome(d, CreatedRecord(answer, ids.answer, now));
  }

  /** The records the cascade creates belong to the unit it was given. */
  lemma CascadeRecordsOfUnit(unidadeId: Value, itemId: Value, item: ItemData, resp: RespostaData, ids: Ids, now: int)
    ensures OfUnit(CreatedRecord(AnswerData(unidadeId, itemId, item, resp), ids.answer, now), unidadeId)
    ensures OfUnit(CreatedRecord(NcData(unidadeId, Str(ids.answer), item, resp), ids.nc, now), unidadeId)
    ensures OfUnit(CreatedRecord(DetData(unidadeId, Str(ids.nc), item, resp), ids.det, now), unidadeId)
    ensures OfUnit(CreatedRecord(RecData(unidadeId, item, resp), ids.rec, now), unidadeId)
  {
  }

  /**
    Counting after the cascade: when the local ids are new to their tables,
    the unit's NCs and determinations grow by one exactly when the answer
    generates an NC, and its recommendations by one exactly when it also
    generates a recommendation. The tables are as the cascade leaves them.
  */
  lemma CascadeCounts(db: Db, d: Db, unidadeId: Value, itemId: Value, item: ItemData, resp: RespostaData, ids: Ids, now: int)
    requires Str(ids.nc) !in Table(db, NaoConformidades) && Str(ids.det) !in Table(db, Determinacoes)
    requires Str(ids.rec) !in Table(db, Recomendacoes)
    requires Table(d, NaoConformidades) ==
      if GeneratesNc(item, resp)
      then Table(db, NaoConformidades)[Str(ids.nc) := CreatedRecord(NcData(unidadeId, Str(ids.answer), item, resp), ids.nc, now)]
      else Table(db, NaoConformidades)
    requires Table(d, Determinacoes) ==
      if GeneratesNc(item, resp)
      then Table(db, Determinacoes)[Str(ids.det) := CreatedRecord(DetData(unidadeId, Str(ids.nc), item, resp), ids.det, now)]
      else Table(db, Determinacoes)
    requires Table(d, Recomendacoes) ==
      if GeneratesRec(item, resp)
      then Table(db, Recomendacoes)[Str(ids.rec) := CreatedRecord(RecData(unidadeId, item, resp), ids.rec, now)]
      else Table(db, Recomendacoes)
    ensures CountOfUnit(Table(d, NaoConformidades), unidadeId) ==
      CountOfUnit(Table(db, NaoConformidades), unidadeId) + (if GeneratesNc(item, resp) then 1 else 0)
    ensures CountOfUnit(Table(d, Determinacoes), unidadeId) ==
      CountOfUnit(Table(db, Determinacoes), unidadeId) + (if GeneratesNc(item, resp) then 1 else 0)
    ensures CountOfUnit(Table(d, Recomendacoes), unidadeId) ==
      CountOfUnit(Table(db, Recomendacoes), unidadeId) + (if GeneratesRec(item, resp) then 1 else 0)
  {
    CascadeRecordsOfUnit(unidadeId, Null, item, resp, ids, now);
    CountAfterPutIf(Table(db, NaoConformidades), Table(d, NaoConformidades), GeneratesNc(item, resp), Str(ids.nc),
                    CreatedRecord(NcData(unidadeId, Str(ids.answer), item, resp), ids.nc, now), unidadeId);
    CountAfterPutIf(Table(db, Determinacoes), Table(d, Determinacoes), GeneratesNc(item, resp), Str(ids.det),
                    CreatedRecord(DetData(unidadeId, Str(ids.nc), item, resp), ids.det, now), unidadeId);
    CountAfterPutIf(Table(db, Recomendacoes), Table(d, Recomendacoes), GeneratesRec(item, resp), Str(ids.rec),
                    CreatedRecord(RecData(unidadeId, item, resp), ids.rec, now), unidadeId);
  }

  /** The NC points at the answer the cascade returns. */
  lemma NcLinksAnswer(unidadeId: Value, itemId: Value, item: ItemData, resp: RespostaData, ids: Ids, now: int)
    ensures Lookup(CreatedRecord(NcData(unidadeId, Str(ids.answer), item, resp), ids.nc, now), RespostaChecklistId)
         == Lookup(CreatedRecord(AnswerData(unidadeId, itemId, item, resp), ids.answer, now), Id)
  {
    DataCarriesNoId(unidadeId, itemId, Str(ids.answer), Str(ids.nc), item, resp);
    CreatedRecordUnit(AnswerData(unidadeId, itemId, item, resp), ids.answer, now);
    CreatedRecordField(NcData(unidadeId, Str(ids.answer), item, resp), ids.nc, now, RespostaChecklistId);
  }

  /** The determination points at the NC. */
  lemma DetLinksNc(unidadeId: Value, item: ItemData, resp: RespostaData, ids: Ids, now: int)
    ensures Lookup(CreatedRecord(DetData(unidadeId, Str(ids.nc), item, resp), ids.det, now), NaoConformidadeId)
         == Lookup(CreatedRecord(NcData(unidadeId, Str(ids.answer), item, resp), ids.nc, now), Id)
  {
    DataCarriesNoId(unidadeId, Null, Str(ids.answer), Str(ids.nc), item, resp);
    CreatedRecordUnit(NcData(unidadeId, Str(ids.answer), item, resp), ids.nc, now);
    CreatedRecordField(DetData(unidadeId, Str(ids.nc), item, resp), ids.det, now, NaoConformidadeId);
  }

  /**
    The NC editor reads a cascade determination back as the template it was
    composed from: the item's text, or the default one.
  */
  lemma DeterminationReadsBack(item: ItemData, resp: RespostaData)
    ensures EditNc.Strip(resp.numeroNc, DetDescricao(item, resp)) == OrElse(item.textoDet, DefaultDetText)
  {
    EditNc.StripInvertsComposer(resp.numeroNc, OrElse(item.textoDet, DefaultDetText));
  }
}
