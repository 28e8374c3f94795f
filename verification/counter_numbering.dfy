/**
  Offset-based labels (src/components/utils/numerationHelper.jsx): the four
  counters hold how many C, NC, D and R numbers earlier units of the same
  inspection already used, and each generator prints its prefix followed by
  its own counter plus one.
*/
module CounterNumbering {
  import opened Wrappers
  import opened Text
  import opened Entities

  /** `{ C, NC, D, R }` as the calcularNumeracao function returns it. */
  datatype Counters = Counters(c: int, nc: int, d: int, r: int)

  const Zero: Counters := Counters(0, 0, 0, 0)

  function Add(a: Counters, b: Counters): Counters {
    Counters(a.c + b.c, a.nc + b.nc, a.d + b.d, a.r + b.r)
  }

  /** The four numbered series: constatações, NCs, determinations, recommendations. */
  datatype Series = C | NC | D | R

  function Prefix(s: Series): string {
    match s
    case C => "C"
    case NC => "NC"
    case D => "D"
    case R => "R"
  }

  /** The counter field a series reads. */
  function Field(k: Counters, s: Series): int {
    match s
    case C => k.c
    case NC => k.nc
    case D => k.d
    case R => k.r
  }

  /** The common shape of the four `gerarNumero*` functions. */
  function Gerar(k: Counters, s: Series): string {
    Label(Prefix(s), Field(k, s) + 1)
  }

  /** gerarNumeroConstatacao(contadores) */
  function GerarNumeroConstatacao(k: Counters): string {
    Gerar(k, C)
  }

  /** gerarNumeroNC(contadores) */
  function GerarNumeroNC(k: Counters): string {
    Gerar(k, NC)
  }

  /** gerarNumeroDeterminacao(contadores) */
  function GerarNumeroDeterminacao(k: Counters): string {
    Gerar(k, D)
  }

  /** gerarNumeroRecomendacao(contadores) */
  function GerarNumeroRecomendacao(k: Counters): string {
    Gerar(k, R)
  }

  /** Every generated label is the series prefix followed by text that reads back as the counter plus one. */
  lemma GeneratedLabelReadsBack(k: Counters, s: Series)
    ensures StartsWith(Gerar(k, s), Prefix(s))
    ensures ParseInt(Gerar(k, s)[|Prefix(s)|..]) == Some(Field(k, s) + 1)
  {
    var text := Gerar(k, s);
    assert text == Label(Prefix(s), Field(k, s) + 1);
    LabelReadsBack(Prefix(s), Field(k, s) + 1);
  }

  /**
    Each generator reads its own counter only: two counter records that agree
    on that field give the same label, and records that differ on it give
    different labels.
  */
  lemma GeneratorsReadOwnField(a: Counters, b: Counters, s: Series)
    ensures Gerar(a, s) == Gerar(b, s) <==> Field(a, s) == Field(b, s)
  {
    LabelInjective(Prefix(s), Field(a, s) + 1, Field(b, s) + 1);
  }

  /**
    What `base44.functions.invoke('calcularNumeracao', ...)` produced: it threw
    (network failure, or a response without `data`), or it returned a body with
    a `success` flag and, on success, the counters.
  */
  datatype Invocation = Threw | Returned(success: bool, contadores: Counters)

  /**
    calcularProximaNumeracao: the server counters when `success` is true, the
    zero counters when it is false or the call threw.
  */
  function CalcularProximaNumeracao(inv: Invocation): (k: Counters)
    ensures inv.Returned? && inv.success ==> k == inv.contadores
    ensures !(inv.Returned? && inv.success) ==> k == Zero
  {
    match inv
    case Returned(success, contadores) => if success then contadores else Zero
    case Threw => Zero
  }

  /** After the fallback the generators give C1, NC1, D1 and R1. */
  lemma FallbackGivesFirstLabels(inv: Invocation)
    requires !(inv.Returned? && inv.success)
    ensures GerarNumeroConstatacao(CalcularProximaNumeracao(inv)) == "C1"
    ensures GerarNumeroNC(CalcularProximaNumeracao(inv)) == "NC1"
    ensures GerarNumeroDeterminacao(CalcularProximaNumeracao(inv)) == "D1"
    ensures GerarNumeroRecomendacao(CalcularProximaNumeracao(inv)) == "R1"
  {
    LabelOfOne("C");
    LabelOfOne("NC");
    LabelOfOne("D");
    LabelOfOne("R");
  }
}
