/**
  The records of one inspection ("fiscalização") as the numbering and cascade
  code sees them. Optional text fields are `Option<string>`: `None` stands for
  a field that is `null` or absent.
*/
module Entities {
  import opened Wrappers
  import opened Text

  /** The `resposta` of a checklist answer: 'SIM', 'NAO' or 'NA'. */
  datatype AnswerValue = Sim | Nao | Na

  /** Where a recommendation came from (`origem`). */
  datatype Origin = FromChecklist | FromManual

  /** ItemChecklist: the static configuration of one checklist question. */
  datatype ChecklistItem = ChecklistItem(
    id: string,
    pergunta: string,
    textoSim: Option<string>,      // texto_constatacao_sim
    textoNao: Option<string>,      // texto_constatacao_nao
    geraNc: bool,                  // gera_nc
    artigo: Option<string>,        // artigo_portaria
    textoNc: Option<string>,       // texto_nc
    textoDet: Option<string>,      // texto_determinacao
    textoRec: Option<string>,      // texto_recomendacao
    prazoDias: Option<int>)        // prazo_dias

  /** RespostaChecklist: the answer given to one item in one unit. */
  datatype ChecklistAnswer = ChecklistAnswer(
    id: string,
    unitId: string,
    itemId: string,
    resposta: AnswerValue,
    pergunta: Option<string>,      // the constatação text stored with the answer
    numero: Option<string>,        // numero_constatacao, e.g. "C3"
    geraNc: bool,
    observacao: Option<string>)

  /** ConstatacaoManual: a finding typed in by the inspector. */
  datatype ManualFinding = ManualFinding(
    id: string,
    unitId: string,
    numero: Option<string>,
    descricao: Option<string>,
    geraNc: bool,
    artigo: Option<string>,
    textoDet: Option<string>,
    textoRec: Option<string>,
    ordem: int)

  /** NaoConformidade */
  datatype NonConformity = NonConformity(
    id: string,
    unitId: string,
    respostaId: Option<string>,    // resposta_checklist_id; None for a manual finding's NC
    numero: Option<string>,        // numero_nc, e.g. "NC2"
    artigo: Option<string>,
    descricao: Option<string>)

  /** Determinacao */
  datatype Determination = Determination(
    id: string,
    unitId: string,
    ncId: Option<string>,          // nao_conformidade_id
    numero: Option<string>,        // numero_determinacao, e.g. "D4"
    descricao: string,
    prazoDias: Option<int>,
    dataLimite: Option<int>,       // due day; the ISO date string is abstracted to a day number
    status: string)                // 'pendente' when created

  /** Recomendacao */
  datatype Recommendation = Recommendation(
    id: string,
    unitId: string,
    numero: Option<string>,        // numero_recomendacao, e.g. "R1"
    descricao: Option<string>,
    origem: Origin)

  /** Fiscalizacao: an inspection, made of inspected units. */
  datatype Inspection = Inspection(
    id: string,
    status: string,                // 'finalizada' once closed
    createdBy: Option<string>)     // created_by, the creator's e-mail

  /** UnidadeFiscalizada, with the totals cached at finalisation. */
  datatype InspectedUnit = InspectedUnit(
    id: string,
    fiscalizacaoId: string,        // fiscalizacao_id
    status: string,                // 'finalizada' once finalised
    totalConstatacoes: Option<int>,
    totalNcs: Option<int>)

  const Finalizada: string := "finalizada"

  /** A record label such as "C3", "NC2", "D4" or "R1": a prefix and an integer in decimal. */
  function Label(prefix: string, n: int): string {
    prefix + IntToString(n)
  }

  /**
    A label reads back as its number, both by `parseInt` on the text after the
    prefix and by `parseInt(label.replace(prefix, ''))`.
  */
  lemma LabelReadsBack(prefix: string, n: int)
    ensures StartsWith(Label(prefix, n), prefix)
    ensures ParseInt(Label(prefix, n)[|prefix|..]) == Some(n)
    ensures ParseInt(ReplaceFirst(Label(prefix, n), prefix)) == Some(n)
  {
    assert Label(prefix, n)[|prefix|..] == IntToString(n);
    ReplaceFirstOfPrefix(prefix, IntToString(n));
    ParseIntOfIntToString(n);
  }

  /** Labels with the same prefix are equal exactly when their numbers are. */
  lemma LabelInjective(prefix: string, m: int, n: int)
    ensures Label(prefix, m) == Label(prefix, n) <==> m == n
  {
    if Label(prefix, m) == Label(prefix, n) {
      LabelReadsBack(prefix, m);
      LabelReadsBack(prefix, n);
    }
  }

  /** A label has no space when its prefix has none: the number is a sign and digits. */
  lemma LabelHasNoSpace(prefix: string, n: int)
    requires ' ' !in prefix
    ensures ' ' !in Label(prefix, n)
  {
    var digits := NatToDigits(if n < 0 then -n else n);
    assert forall i :: 0 <= i < |digits| ==> digits[i] != ' ';
    if n < 0 {
      assert Label(prefix, n) == prefix + "-" + digits;
    } else {
      assert Label(prefix, n) == prefix + digits;
    }
  }

  /** The first label of every series. */
  lemma LabelOfOne(prefix: string)
    ensures Label(prefix, 1) == prefix + "1"
  {
    assert IntToString(1) == "1";
  }

  /** `s.filter(p)` */
  function Filter<T>(s: seq<T>, p: T -> bool): (r: seq<T>)
    ensures |r| <= |s|
    ensures forall i :: 0 <= i < |r| ==> p(r[i])
  {
    if s == [] then [] else Filter(s[..|s| - 1], p) + (if p(s[|s| - 1]) then [s[|s| - 1]] else [])
  }

  /** `filter` keeps exactly the elements satisfying the predicate. */
  lemma {:induction false} FilterMembership<T>(s: seq<T>, p: T -> bool, x: T)
    ensures x in Filter(s, p) <==> x in s && p(x)
    decreases |s|
  {
    if s != [] {
      FilterMembership(s[..|s| - 1], p, x);
      assert s == s[..|s| - 1] + [s[|s| - 1]];
    }
  }

  /** `s.find(p)`: the first element satisfying `p`, if any. */
  function Find<T>(s: seq<T>, p: T -> bool): (r: Option<T>)
    ensures r.Some? ==> p(r.value) && r.value in s
    ensures r.None? ==> forall i :: 0 <= i < |s| ==> !p(s[i])
  {
    if s == [] then None else if p(s[0]) then Some(s[0]) else Find(s[1..], p)
  }

  /** The first `n` elements, as a remote `filter(..., limit)` returns at most `limit` records. */
  function Take<T>(s: seq<T>, n: nat): (r: seq<T>)
    ensures |r| == if |s| < n then |s| else n
    ensures r == s[..|r|]
  {
    if |s| <= n then s else s[..n]
  }
}
