/**
  The sentences the cascades compose for NCs and determinations. The code
  uses several phrasings for the same thing; each is defined once here and
  named after where it is used.
*/
module Phrasing {
  import opened Wrappers
  import opened Text

  /**
    "A Constatação {C} não cumpre o disposto no {artigo};" — the batch
    endpoint, the finalize planner and the NC editor's default.
  */
  function NcSentence(c: string, artigo: string): string {
    "A Constatação " + c + " não cumpre o disposto no " + artigo + ";"
  }

  /** "A Constatação {C} não cumpre o disposto no {artigo}." — the live cascade. */
  function NcSentenceWithPeriod(c: string, artigo: string): string {
    "A Constatação " + c + " não cumpre o disposto no " + artigo + "."
  }

  /** "A constatação {C} não cumpre o disposto no {artigo}." (lower-case c) — renumbering and the local-first cascade. */
  function NcSentenceLower(c: string, artigo: string): string {
    "A constatação " + c + " não cumpre o disposto no " + artigo + "."
  }

  /** The prefix the NC editor strips: "Para sanar a {NC} ". */
  function DetPrefix(nc: string): string {
    "Para sanar a " + nc + " "
  }

  /** The suffix the NC editor strips. */
  const PrazoSuffix: string := ". Prazo: 30 dias."

  /** "Para sanar a {NC} {texto}" — the batch endpoint and the finalize planner. */
  function DetSentence(nc: string, texto: string): string {
    DetPrefix(nc) + texto
  }

  /** "Para sanar a {NC} {texto}. Prazo: 30 dias." — renumbering and the local-first cascade. */
  function DetSentenceWithPrazo(nc: string, texto: string): string {
    DetPrefix(nc) + texto + PrazoSuffix
  }

  /** "Para sanar {NC}, " followed by the template with its first letter in lower case — the live cascade. */
  function DetSentenceLive(nc: string, texto: string): string {
    "Para sanar " + nc + ", " + LowerFirst(texto)
  }

  /**
    The article named when an NC has none: the finalize planner's manual
    NCs and renumbering's checklist NCs.
  */
  const UnspecifiedArtigo: string := "artigo não especificado"

  /** The default determination text of renumbering and the local-first cascade. */
  const DefaultDetText: string := "regularizar a situação identificada"

  /** The NC sentences of different labels differ, so a sentence identifies its constatação. */
  lemma NcSentenceInjective(c1: string, c2: string, artigo: string)
    ensures NcSentence(c1, artigo) == NcSentence(c2, artigo) <==> c1 == c2
  {
    var p := "A Constatação ";
    var q := " não cumpre o disposto no " + artigo + ";";
    assert NcSentence(c1, artigo) == p + c1 + q;
    assert NcSentence(c2, artigo) == p + c2 + q;
    if NcSentence(c1, artigo) == NcSentence(c2, artigo) {
      assert |c1| == |c2|;
      assert c1 == (p + c1 + q)[|p|..|p| + |c1|];
      assert c2 == (p + c2 + q)[|p|..|p| + |c2|];
    }
  }

  /** Every determination sentence of the batch and finalize phrasing starts with the prefix the editor strips. */
  lemma DetSentenceStartsWithPrefix(nc: string, texto: string)
    ensures StartsWith(DetSentence(nc, texto), DetPrefix(nc))
    ensures StartsWith(DetSentenceWithPrazo(nc, texto), DetPrefix(nc))
    ensures EndsWith(DetSentenceWithPrazo(nc, texto), PrazoSuffix)
  {
    assert DetSentenceWithPrazo(nc, texto) == DetPrefix(nc) + (texto + PrazoSuffix);
    assert DetSentence(nc, texto)[..|DetPrefix(nc)|] == DetPrefix(nc);
    assert DetSentenceWithPrazo(nc, texto)[..|DetPrefix(nc)|] == DetPrefix(nc);
  }

  /** How the sentences of `NcSentence` open, before the constatação number. */
  const NcOpening: string := "A Constatação "

  /**
    The constatação number an NC sentence names: the word after the opening,
    up to the next space; `None` when the text does not read that way.
  */
  function NamedConstatacao(s: string): (r: Option<string>)
    ensures r.Some? ==> StartsWith(s, NcOpening + r.value + " ")
  {
    if !StartsWith(s, NcOpening) then None
    else
      var rest := s[|NcOpening|..];
      if ' ' !in rest then None
      else
        var k := FirstIndex(rest, ' ');
        assert s[..|NcOpening| + k + 1] == NcOpening + rest[..k] + " ";
        Some(rest[..k])
  }

  /** An NC sentence names the constatação it was composed with, whenever that number has no space. */
  lemma NamedConstatacaoOfSentence(c: string, artigo: string)
    requires ' ' !in c
    ensures NamedConstatacao(NcSentence(c, artigo)) == Some(c)
  {
    var tail := " não cumpre o disposto no " + artigo + ";";
    var s := NcSentence(c, artigo);
    assert s == NcOpening + (c + tail);
    assert s[..|NcOpening|] == NcOpening;
    var rest := s[|NcOpening|..];
    assert rest == c + tail;
    assert rest[|c|] == ' ';
    assert rest[..|c|] == c;
  }
}
