/**
  functions/criarNcComDeterminacaoBatch.ts: the batch endpoint that receives
  answers whose numbers (C, NC, D, R) were already chosen by the caller and,
  for each one in turn, creates the checklist answer, then the NC, then
  either a determination or a recommendation.

  Remote creates are modelled by a supply of ids: the n-th create receives
  `ids[n]`, and a create with no id left throws, which ends the request with
  a 500 after the writes already made.
*/
module BatchCascade {
  import opened Wrappers
  import opened Text
  import opened Entities
  import opened Phrasing

  /** `prazo_dias` as sent: absent (the default 30 applies), `null`, or a number. */
  datatype Prazo = Undefined | Null | Days(n: int)

  /** One element of `respostas`. */
  datatype BatchInput = BatchInput(
    unitId: Option<string>,
    itemId: Option<string>,
    pergunta: Option<string>,
    artigo: Option<string>,
    textoNc: Option<string>,
    textoDet: Option<string>,
    textoRec: Option<string>,
    numeroC: Option<string>,
    numeroNc: Option<string>,
    numeroD: Option<string>,
    numeroR: Option<string>,
    prazo: Prazo,
    resposta: Option<string>)

  /** The records the endpoint creates, in the order it creates them. */
  datatype Write =
    | NewAnswer(id: string, unitId: Option<string>, itemId: Option<string>, pergunta: Option<string>,
                resposta: Option<string>, geraNc: bool, numero: Option<string>, observacao: string)
    | NewNc(id: string, unitId: Option<string>, respostaId: string, numero: Option<string>,
            artigo: Option<string>, descricao: string)
    | NewDet(id: string, unitId: Option<string>, ncId: string, numero: Option<string>, descricao: string,
             prazoDias: Option<int>, dataLimite: int, status: string)
    | NewRec(id: string, unitId: Option<string>, numero: Option<string>, texto: Option<string>, origem: Origin)

  /** `{ id, numero }` of a created record. */
  datatype Ref = Ref(id: string, numero: Option<string>)

  /** One entry of `resultados`. */
  datatype Resultado = Resultado(
    itemId: Option<string>,
    resposta: Ref,
    nc: Option<Ref>,
    det: Option<(Ref, int)>,
    rec: Option<Ref>)

  datatype BatchResponse =
    | Unauthorized
    | BadRequest
    | ServerError
    | Success(processados: nat, resultados: seq<Resultado>)

  /** `prazo_dias = 30` in the destructuring applies to an absent field only. */
  function PrazoStored(p: Prazo): Option<int> {
    match p
    case Undefined => Some(30)
    case Null => None
    case Days(n) => Some(n)
  }

  /** The day count `setDate(getDate() + prazo_dias)` adds; `null` adds as 0. */
  function PrazoOffset(p: Prazo): int {
    PrazoStored(p).GetOr(0)
  }

  /**
    A question gets a trailing ';' (after trimming) unless its trimmed text
    already ends with one; an empty or missing question is left alone.
  */
  function FormatPergunta(p: Option<string>): Option<string> {
    if Truthy(p) && !EndsWith(Trim(p.value), ";") then Some(Trim(p.value) + ";") else p
  }

  /** Formatting twice is formatting once. */
  lemma FormatPerguntaIdempotent(p: Option<string>)
    ensures FormatPergunta(FormatPergunta(p)) == FormatPergunta(p)
  {
    if Truthy(p) && !EndsWith(Trim(p.value), ";") {
      var t := Trim(p.value);
      TrimIdempotent(p.value);
      TrimOfTrimmedPlus(t, ';');
      assert EndsWith(t + ";", ";");
    }
  }

  /** A formatted question is missing or empty, or its trimmed text ends with ';'. */
  lemma FormatPerguntaEndsWithSemicolon(p: Option<string>)
    ensures var f := FormatPergunta(p); !Truthy(f) || EndsWith(Trim(f.value), ";")
  {
    if Truthy(p) && !EndsWith(Trim(p.value), ";") {
      var t := Trim(p.value);
      TrimIdempotent(p.value);
      TrimOfTrimmedPlus(t, ';');
    }
  }

  /** The stored `gera_nc`, which is also the condition for creating the NC. */
  predicate GeraNc(inp: BatchInput) {
    inp.resposta == Some("NAO") && Truthy(inp.textoNc)
  }

  /** The NC sentence with the supplied constatação number and article. */
  function NcText(numeroC: Option<string>, artigo: Option<string>): string {
    NcSentence(Show(numeroC), Show(artigo))
  }

  /** The determination sentence with the supplied NC number. */
  function DetText(numeroNc: Option<string>, texto: string): string {
    DetSentence(Show(numeroNc), texto)
  }

  /** The writes and the result entry for one input that went through. */
  datatype Processed = Processed(writes: seq<Write>, resultado: Resultado, used: nat)

  /**
    The body of the loop for one input, with `ids` the ids the remote store
    will hand out next. `Err` carries the writes made before the failing
    create.
  */
  function ProcessOne(inp: BatchInput, today: int, ids: seq<string>): (r: Result<Processed, seq<Write>>)
    ensures r.Ok? ==> r.value.used <= |ids| && |r.value.writes| == r.value.used
    ensures r.Err? ==> |r.error| < 3 && |r.error| == |ids|
  {
    if |ids| == 0 then Err([])
    else
      var answer := NewAnswer(ids[0], inp.unitId, inp.itemId, FormatPergunta(inp.pergunta), inp.resposta,
                              GeraNc(inp), inp.numeroC, "");
      var base := Resultado(inp.itemId, Ref(ids[0], inp.numeroC), None, None, None);
      if !GeraNc(inp) then Ok(Processed([answer], base, 1))
      else if |ids| == 1 then Err([answer])
      else
        var nc := NewNc(ids[1], inp.unitId, ids[0], inp.numeroNc, inp.artigo, NcText(inp.numeroC, inp.artigo));
        var withNc := base.(nc := Some(Ref(ids[1], inp.numeroNc)));
        if Truthy(inp.textoDet) then
          if |ids| == 2 then Err([answer, nc])
          else
            var limite := today + PrazoOffset(inp.prazo);
            var det := NewDet(ids[2], inp.unitId, ids[1], inp.numeroD, DetText(inp.numeroNc, inp.textoDet.value),
                              PrazoStored(inp.prazo), limite, "pendente");
            Ok(Processed([answer, nc, det], withNc.(det := Some((Ref(ids[2], inp.numeroD), limite))), 3))
        else if Truthy(inp.textoRec) then
          if |ids| == 2 then Err([answer, nc])
          else
            var rec := NewRec(ids[2], inp.unitId, inp.numeroR, inp.textoRec, FromChecklist);
            Ok(Processed([answer, nc, rec], withNc.(rec := Some(Ref(ids[2], inp.numeroR))), 3))
        else Ok(Processed([answer, nc], withNc, 2))
  }

  predicate IsNc(w: Write) { w.NewNc? }
  predicate IsDet(w: Write) { w.NewDet? }
  predicate IsRec(w: Write) { w.NewRec? }

  /**
    The answer always comes first and stores `gera_nc` = (NAO and a truthy
    `texto_nc`); an NC is created exactly under that condition, after the
    answer and pointing at it.
  */
  lemma NcIffGeraNc(inp: BatchInput, today: int, ids: seq<string>)
    requires ProcessOne(inp, today, ids).Ok?
    ensures var p := ProcessOne(inp, today, ids).value;
      p.writes[0].NewAnswer? && p.writes[0].geraNc == GeraNc(inp) &&
      ((exists k :: 0 <= k < |p.writes| && IsNc(p.writes[k])) <==> GeraNc(inp)) &&
      (p.resultado.nc.Some? <==> GeraNc(inp))
    ensures var p := ProcessOne(inp, today, ids).value;
      GeraNc(inp) ==>
        p.writes[1].NewNc? && p.writes[1].respostaId == p.writes[0].id &&
        p.writes[1].descricao == NcText(inp.numeroC, inp.artigo)
  {
    var p := ProcessOne(inp, today, ids).value;
    if GeraNc(inp) {
      assert IsNc(p.writes[1]);
    }
  }

  /**
    After the NC, a determination is created when `texto_determinacao` is
    truthy, otherwise a recommendation when `texto_recomendacao` is; never
    both, and neither without an NC.
  */
  lemma DeterminationOrRecommendation(inp: BatchInput, today: int, ids: seq<string>)
    requires ProcessOne(inp, today, ids).Ok?
    ensures var p := ProcessOne(inp, today, ids).value;
      ((exists k :: 0 <= k < |p.writes| && IsDet(p.writes[k])) <==> GeraNc(inp) && Truthy(inp.textoDet)) &&
      ((exists k :: 0 <= k < |p.writes| && IsRec(p.writes[k])) <==>
        GeraNc(inp) && !Truthy(inp.textoDet) && Truthy(inp.textoRec)) &&
      !(p.resultado.det.Some? && p.resultado.rec.Some?)
  {
    var p := ProcessOne(inp, today, ids).value;
    if GeraNc(inp) && (Truthy(inp.textoDet) || Truthy(inp.textoRec)) {
      assert Truthy(inp.textoDet) ==> IsDet(p.writes[2]);
      assert !Truthy(inp.textoDet) ==> IsRec(p.writes[2]);
    }
  }

  /**
    A created determination points at the NC created just before it, carries
    `prazo_dias` (30 when absent) and is due that many days after today.
  */
  lemma DeterminationDeadline(inp: BatchInput, today: int, ids: seq<string>)
    requires ProcessOne(inp, today, ids).Ok?
    requires GeraNc(inp) && Truthy(inp.textoDet)
    ensures var p := ProcessOne(inp, today, ids).value;
      |p.writes| == 3 && p.writes[2].NewDet? && p.writes[2].ncId == p.writes[1].id &&
      p.writes[2].dataLimite - today == PrazoOffset(inp.prazo) &&
      (inp.prazo == Undefined ==> p.writes[2].prazoDias == Some(30) && p.writes[2].dataLimite == today + 30) &&
      p.writes[2].descricao == DetText(inp.numeroNc, inp.textoDet.value)
  {
  }

  /**
    The loop over `respostas`: every input in order, each consuming the ids
    its creates used. `Err` carries all writes made before the failure.
  */
  /** Outcome of the loop from some input on: the results and writes, or the writes before a failure. */
  type Outcome = Result<(seq<Resultado>, seq<Write>), seq<Write>>

  /** Puts what earlier iterations produced in front of an outcome. */
  function After(done: seq<Resultado>, made: seq<Write>, o: Outcome): Outcome {
    match o
    case Ok((rs, ws)) => Ok((done + rs, made + ws))
    case Err(ws) => Err(made + ws)
  }

  lemma AfterNothing(o: Outcome)
    ensures After([], [], o) == o
  {
    match o
    case Ok((rs, ws)) => assert [] + rs == rs && [] + ws == ws;
    case Err(ws) => assert [] + ws == ws;
  }

  lemma AfterAfter(d1: seq<Resultado>, m1: seq<Write>, d2: seq<Resultado>, m2: seq<Write>, o: Outcome)
    ensures After(d1, m1, After(d2, m2, o)) == After(d1 + d2, m1 + m2, o)
  {
    match o
    case Ok((rs, ws)) => assert d1 + (d2 + rs) == d1 + d2 + rs && m1 + (m2 + ws) == m1 + m2 + ws;
    case Err(ws) => assert m1 + (m2 + ws) == m1 + m2 + ws;
  }

  /**
    The loop over `respostas`: every input in order, each consuming the ids
    its creates used. `Err` carries all writes made before the failure.
  */
  function ProcessAll(inputs: seq<BatchInput>, today: int, ids: seq<string>): (r: Outcome)
    ensures r.Ok? ==> |r.value.0| == |inputs|
    decreases |inputs|
  {
    if inputs == [] then Ok(([], []))
    else
      match ProcessOne(inputs[0], today, ids)
      case Err(partial) => Err(partial)
      case Ok(p) => After([p.resultado], p.writes, ProcessAll(inputs[1..], today, ids[p.used..]))
  }

  /** One result per input, in input order: entry i reports input i's item. */
  lemma {:induction false} ResultsFollowInputs(inputs: seq<BatchInput>, today: int, ids: seq<string>)
    requires ProcessAll(inputs, today, ids).Ok?
    ensures var rs := ProcessAll(inputs, today, ids).value.0;
      |rs| == |inputs| && forall i :: 0 <= i < |inputs| ==> rs[i].itemId == inputs[i].itemId
    decreases |inputs|
  {
    if inputs != [] {
      var p := ProcessOne(inputs[0], today, ids).value;
      ResultsFollowInputs(inputs[1..], today, ids[p.used..]);
    }
  }

  /**
    The endpoint: 401 without a user, 400 unless `respostas` is a non-empty
    array, 500 when a create throws (the earlier writes stay), otherwise one
    result per input. `respostas` is `None` when the body field is not an array.
  */
  method CriarNcComDeterminacaoBatch(user: bool, respostas: Option<seq<BatchInput>>, today: int, ids: seq<string>)
    returns (resp: BatchResponse, writes: seq<Write>)
    ensures !user ==> resp == Unauthorized && writes == []
    ensures user && (respostas.None? || respostas.value == []) ==> resp == BadRequest && writes == []
    ensures user && respostas.Some? && respostas.value != [] ==>
      match ProcessAll(respostas.value, today, ids)
      case Ok((rs, ws)) => resp == Success(|respostas.value|, rs) && writes == ws
      case Err(ws) => resp == ServerError && writes == ws
  {
    if !user {
      return Unauthorized, [];
    }
    if respostas.None? || respostas.value == [] {
      return BadRequest, [];
    }
    var inputs := respostas.value;
    var resultados: seq<Resultado> := [];
    writes := [];
    var rest := ids;
    var i := 0;
    assert inputs[0..] == inputs;
    AfterNothing(ProcessAll(inputs, today, ids));
    while i < |inputs|
      invariant 0 <= i <= |inputs|
      invariant ProcessAll(inputs, today, ids) == After(resultados, writes, ProcessAll(inputs[i..], today, rest))
      invariant |resultados| == i
    {
      assert inputs[i..][1..] == inputs[i + 1..];
      match ProcessOne(inputs[i], today, rest)
      case Err(partial) =>
        writes := writes + partial;
        resp := ServerError;
        return;
      case Ok(p) =>
        AfterAfter(resultados, writes, [p.resultado], p.writes, ProcessAll(inputs[i + 1..], today, rest[p.used..]));
        resultados := resultados + [p.resultado];
        writes := writes + p.writes;
        rest := rest[p.used..];
      i := i + 1;
    }
    assert inputs[i..] == [];
    assert resultados + [] == resultados && writes + [] == writes;
    resp := Success(|resultados|, resultados);
  }
}
