/**
  The NC editor (src/components/fiscalizacao/EditarNCModal.jsx) without its
  dialog: the effect that fills the form when the editor opens, and the
  validation and payload of `handleSave`.
*/
module EditNc {
  import opened Wrappers
  import opened Text
  import opened Entities
  import opened Phrasing

  /**
    The article offered when the constatação has no NC yet. This and the next
    literal are written in two pieces so that their first characters are at
    hand for the proofs.
  */
  const PlaceholderArtigo: string := "Art. XX, inciso XX" + " da Portaria AGEMS nº XX/xx"

  /** The determination text offered when there is no determination yet. */
  const DefaultDetermination: string := "Regularizar a situação" + " conforme normas vigentes."

  /** The editor's state: one field per `useState`. */
  datatype Form = Form(
    artigo: string,
    textoNc: string,
    geraDet: bool,
    geraRec: bool,
    textoDet: string,
    textoRec: string,
    textoConstatacao: string)

  /** The state before the first initialisation. */
  const EmptyForm: Form := Form("", "", true, false, "", "", "")

  /** What `handleSave` passes to `onSave`. */
  datatype Payload = Payload(
    textoConstatacao: string,
    artigo: string,
    textoNc: string,
    geraDet: bool,
    geraRec: bool,
    textoDet: Option<string>,
    textoRec: Option<string>,
    ncId: Option<string>,
    detId: Option<string>,
    recId: Option<string>)

  /**
    A stored determination text with the editor's prefix "Para sanar a {NC} "
    and suffix ". Prazo: 30 dias." removed, each only when present. The NC
    number is printed as a template literal prints it.
  */
  function Strip(numeroNc: Option<string>, text: string): (r: string)
    ensures |r| <= |text|
    ensures !StartsWith(text, DetPrefix(Show(numeroNc))) && !EndsWith(text, PrazoSuffix) ==> r == text
  {
    var p := DetPrefix(Show(numeroNc));
    var afterPrefix := if StartsWith(text, p) then text[|p|..] else text;
    if EndsWith(afterPrefix, PrazoSuffix) then afterPrefix[..|afterPrefix| - |PrazoSuffix|] else afterPrefix
  }

  /**
    The initialisation effect. It fires only when the editor is open and the
    constatação number is truthy; otherwise the form keeps its state.
  */
  function Init(prev: Form, open: bool, numeroC: Option<string>, numeroNc: Option<string>,
                constatacaoTexto: Option<string>, nc: Option<NonConformity>,
                det: Option<Determination>, rec: Option<Recommendation>): (f: Form)
    ensures !(open && Truthy(numeroC)) ==> f == prev
    ensures open && Truthy(numeroC) ==>
      && f.textoConstatacao == OrElse(constatacaoTexto, "")
      && (nc.Some? ==> f.artigo == OrElse(nc.value.artigo, "") && f.textoNc == OrElse(nc.value.descricao, ""))
      && (nc.None? ==> f.artigo == PlaceholderArtigo && f.textoNc == NcSentence(numeroC.value, PlaceholderArtigo))
      && f.geraDet
      && (det.Some? ==> f.textoDet == Strip(numeroNc, det.value.descricao))
      && (det.None? ==> f.textoDet == DefaultDetermination)
      && (f.geraRec <==> rec.Some?)
      && (rec.Some? ==> f.textoRec == OrElse(rec.value.descricao, ""))
      && (rec.None? ==> f.textoRec == "")
  {
    if !(open && Truthy(numeroC)) then prev
    else
      var artigo := if nc.Some? then OrElse(nc.value.artigo, "") else PlaceholderArtigo;
      var textoNc :=
        if nc.Some? then OrElse(nc.value.descricao, "")
        else "A Constatação " + numeroC.value + " não cumpre o disposto no " + PlaceholderArtigo + ";";
      var textoDet := if det.Some? then Strip(numeroNc, det.value.descricao) else DefaultDetermination;
      var textoRec := if rec.Some? then OrElse(rec.value.descricao, "") else "";
      Form(artigo, textoNc, true, rec.Some?, textoDet, textoRec, OrElse(constatacaoTexto, ""))
  }

  /** `x?.id || null` */
  function IdOrNull(id: Option<string>): (r: Option<string>)
    ensures r.Some? <==> Truthy(id)
    ensures r.Some? ==> r == id
  {
    if Truthy(id) then id else None
  }

  /** The form passes every check of `handleSave`. */
  predicate Saveable(f: Form) {
    && Trim(f.textoConstatacao) != []
    && Trim(f.textoNc) != []
    && (f.geraDet ==> Trim(f.textoDet) != [])
    && (f.geraRec ==> Trim(f.textoRec) != [])
    && (f.geraDet || f.geraRec)
  }

  /** A text as stored by `onSave`: trimmed. */
  predicate IsTrimmed(s: string) {
    Trim(s) == s
  }

  /**
    handleSave: `None` when a check returns early without calling `onSave`,
    otherwise the payload it passes.
  */
  function Save(f: Form, nc: Option<NonConformity>, det: Option<Determination>, rec: Option<Recommendation>): (r: Option<Payload>)
    ensures r.Some? <==> Saveable(f)
    ensures r.Some? ==>
      && r.value.textoConstatacao != [] && IsTrimmed(r.value.textoConstatacao)
      && r.value.textoNc != [] && IsTrimmed(r.value.textoNc)
      && IsTrimmed(r.value.artigo)
      && r.value.geraDet == f.geraDet && r.value.geraRec == f.geraRec
      && (r.value.textoDet.Some? <==> f.geraDet)
      && (r.value.textoRec.Some? <==> f.geraRec)
      && (r.value.textoDet.Some? ==> r.value.textoDet.value != [] && IsTrimmed(r.value.textoDet.value))
      && (r.value.textoRec.Some? ==> r.value.textoRec.value != [] && IsTrimmed(r.value.textoRec.value))
      && (r.value.ncId.Some? <==> nc.Some? && nc.value.id != [])
      && (r.value.detId.Some? <==> det.Some? && det.value.id != [])
      && (r.value.recId.Some? <==> rec.Some? && rec.value.id != [])
    // the payload carries the form's own texts, trimmed, and the records' own ids
    ensures r.Some? ==>
      && r.value.textoConstatacao == Trim(f.textoConstatacao)
      && r.value.artigo == Trim(f.artigo)
      && r.value.textoNc == Trim(f.textoNc)
      && (f.geraDet ==> r.value.textoDet == Some(Trim(f.textoDet)))
      && (f.geraRec ==> r.value.textoRec == Some(Trim(f.textoRec)))
      && (r.value.ncId.Some? ==> r.value.ncId.value == nc.value.id)
      && (r.value.detId.Some? ==> r.value.detId.value == det.value.id)
      && (r.value.recId.Some? ==> r.value.recId.value == rec.value.id)
  {
    if Trim(f.textoConstatacao) == [] then None
    else if Trim(f.textoNc) == [] then None
    else if f.geraDet && Trim(f.textoDet) == [] then None
    else if f.geraRec && Trim(f.textoRec) == [] then None
    else if !f.geraDet && !f.geraRec then None
    else
      TrimIdempotent(f.textoConstatacao);
      TrimIdempotent(f.artigo);
      TrimIdempotent(f.textoNc);
      TrimIdempotent(f.textoDet);
      TrimIdempotent(f.textoRec);
      Some(Payload(
        Trim(f.textoConstatacao),
        Trim(f.artigo),
        Trim(f.textoNc),
        f.geraDet,
        f.geraRec,
        if f.geraDet then Some(Trim(f.textoDet)) else None,
        if f.geraRec then Some(Trim(f.textoRec)) else None,
        IdOrNull(if nc.Some? then Some(nc.value.id) else None),
        IdOrNull(if det.Some? then Some(det.value.id) else None),
        IdOrNull(if rec.Some? then Some(rec.value.id) else None)))
  }

  /**
    Stripping inverts the local-first composer: a determination written as
    "Para sanar a {NC} {t}. Prazo: 30 dias." reads back as `t`, whatever `t` is.
  */
  lemma StripInvertsComposer(numeroNc: Option<string>, t: string)
    ensures Strip(numeroNc, DetSentenceWithPrazo(Show(numeroNc), t)) == t
  {
    var p := DetPrefix(Show(numeroNc));
    var s := DetSentenceWithPrazo(Show(numeroNc), t);
    assert s == p + (t + PrazoSuffix);
    assert s[..|p|] == p;
    assert s[|p|..] == t + PrazoSuffix;
    assert (t + PrazoSuffix)[|t|..] == PrazoSuffix;
  }

  /**
    The batch and finalize phrasing "Para sanar a {NC} {t}" has no suffix, so
    only the prefix goes, unless `t` itself ends with the suffix.
  */
  lemma StripOfBatchSentence(numeroNc: Option<string>, t: string)
    requires !EndsWith(t, PrazoSuffix)
    ensures Strip(numeroNc, DetSentence(Show(numeroNc), t)) == t
  {
    var p := DetPrefix(Show(numeroNc));
    var s := DetSentence(Show(numeroNc), t);
    assert s[..|p|] == p;
    assert s[|p|..] == t;
  }

  /** A text whose first and last characters are not white space is its own trim. */
  lemma TrimOfSolidEnds(s: string)
    requires s != [] && !IsWhite(s[0]) && !IsWhite(s[|s| - 1])
    ensures Trim(s) == s && Trim(s) != []
  {
    assert TrimStart(s) == s;
  }

  /** The NC sentence is never blank and is already trimmed. */
  lemma NcSentenceTrimmed(c: string, artigo: string)
    ensures IsTrimmed(NcSentence(c, artigo)) && NcSentence(c, artigo) != []
  {
    var s := NcSentence(c, artigo);
    assert s[0] == 'A';
    assert s[|s| - 1] == ';';
    TrimOfSolidEnds(s);
  }

  /** The editor's default article is already trimmed. */
  lemma PlaceholderTrimmed()
    ensures IsTrimmed(PlaceholderArtigo)
  {
    var a := PlaceholderArtigo;
    assert a[0] == 'A' && a[|a| - 1] == 'x';
    TrimOfSolidEnds(a);
  }

  /** The editor's default determination is already trimmed, and not blank. */
  lemma DefaultDeterminationTrimmed()
    ensures IsTrimmed(DefaultDetermination) && DefaultDetermination != []
  {
    var d := DefaultDetermination;
    assert d[0] == 'R' && d[|d| - 1] == '.';
    TrimOfSolidEnds(d);
  }

  /**
    A constatação with no NC, determination or recommendation yet, and with
    some text, can be saved straight after the editor opens: the payload holds
    the default NC sentence and the default determination, no recommendation,
    and no ids.
  */
  lemma DefaultsAreSaveable(prev: Form, numeroC: string, numeroNc: Option<string>, constatacaoTexto: Option<string>)
    requires numeroC != [] && HasText(constatacaoTexto)
    ensures Save(Init(prev, true, Some(numeroC), numeroNc, constatacaoTexto, None, None, None), None, None, None)
      == Some(Payload(Trim(constatacaoTexto.value), PlaceholderArtigo, NcSentence(numeroC, PlaceholderArtigo),
                      true, false, Some(DefaultDetermination), None, None, None, None))
  {
    var f := Init(prev, true, Some(numeroC), numeroNc, constatacaoTexto, None, None, None);
    var sentence := NcSentence(numeroC, PlaceholderArtigo);
    assert f == Form(PlaceholderArtigo, sentence, true, false, DefaultDetermination, "", constatacaoTexto.value);
    assert Trim(sentence) == sentence && sentence != [] by { NcSentenceTrimmed(numeroC, PlaceholderArtigo); }
    PlaceholderTrimmed();
    DefaultDeterminationTrimmed();
    assert Saveable(f);
  }

  /**
    Editing a determination composed by the local-first cascade and saving it
    unchanged hands back the template text it was composed from, when that
    text is trimmed and not blank.
  */
  lemma ReopenedDeterminationSavesItsTemplate(prev: Form, numeroC: string, numeroNc: Option<string>,
                                               constatacaoTexto: Option<string>, nc: Option<NonConformity>,
                                               det: Determination, rec: Option<Recommendation>, t: string)
    requires numeroC != [] && det.descricao == DetSentenceWithPrazo(Show(numeroNc), t)
    requires t != [] && IsTrimmed(t)
    ensures Init(prev, true, Some(numeroC), numeroNc, constatacaoTexto, nc, Some(det), rec).textoDet == t
    ensures
      var f := Init(prev, true, Some(numeroC), numeroNc, constatacaoTexto, nc, Some(det), rec);
      var r := Save(f, nc, Some(det), rec);
      r.Some? ==> r.value.textoDet == Some(t)
  {
    StripInvertsComposer(numeroNc, t);
  }
}
