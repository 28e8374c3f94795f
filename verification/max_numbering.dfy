/**
  Max-based allocation of constatação, NC and determination numbers
  (src/components/offline/numerationHelper.jsx; the same computation is
  repeated inline by respostaHandler.jsx). Every existing label is parsed, the
  largest value is taken and one is added, so a gap left by a deleted record
  is never filled again.
*/
module MaxNumbering {
  import opened Wrappers
  import opened Text
  import opened Entities

  /**
    A constatação label as `respostas.filter(r => r.numero_constatacao)
    .map(r => parseInt(r.numero_constatacao.replace('C', '')))`: a null or
    empty label is dropped, and so is a label whose remainder is not numeric.
  */
  function ParseConstatacao(numero: Option<string>): Option<int> {
    if Truthy(numero) then ParseInt(ReplaceFirst(numero.value, "C")) else None
  }

  /**
    An NC or determination label as `parseInt(label?.replace(prefix, '') || '0')`:
    a missing label, or one that is nothing but the prefix, reads as 0.
  */
  function ParseOrZero(numero: Option<string>, prefix: string): Option<int> {
    var rest := if numero.Some? then ReplaceFirst(numero.value, prefix) else [];
    ParseInt(if rest == [] then "0" else rest)
  }

  /** `numeros.length > 0 ? Math.max(...numeros) + 1 : 1` */
  function NextAfter(xs: seq<int>): (r: int)
    ensures |xs| == 0 ==> r == 1
    ensures |xs| > 0 ==> r - 1 in xs
    ensures forall x :: x in xs ==> x < r
  {
    if |xs| == 0 then 1
    else
      var m := NextAfter(xs[..|xs| - 1]);
      var last := xs[|xs| - 1];
      assert xs == xs[..|xs| - 1] + [last];
      if |xs| == 1 || last >= m then last + 1 else m
  }

  /** A list with no member at all starts the numbering at 1. */
  lemma NextAfterOfNothing(xs: seq<int>)
    requires forall x :: x !in xs
    ensures NextAfter(xs) == 1
  {
    var r := NextAfter(xs);
    assert |xs| > 0 ==> r - 1 in xs;
  }

  /** The result depends only on which values occur, not on order or repetition. */
  lemma NextAfterDependsOnValues(xs: seq<int>, ys: seq<int>)
    requires forall x :: x in xs <==> x in ys
    ensures NextAfter(xs) == NextAfter(ys)
  {
    var a, b := NextAfter(xs), NextAfter(ys);
    if |xs| > 0 {
      assert xs[0] in xs;
      assert a - 1 in ys && b - 1 in xs;
    } else {
      NextAfterOfNothing(ys);
    }
  }

  /**
    The parsed numbers of a record list: `records.map(parse)` with the values
    that did not parse dropped.
  */
  function Numbers<T>(s: seq<T>, parse: T -> Option<int>): (ns: seq<int>)
    ensures |ns| <= |s|
  {
    if s == [] then []
    else Numbers(s[..|s| - 1], parse) + (match parse(s[|s| - 1]) case Some(n) => [n] case None => [])
  }

  /** A number is in the list exactly when some record parses to it. */
  lemma {:induction false} NumbersMembership<T>(s: seq<T>, parse: T -> Option<int>, n: int)
    ensures n in Numbers(s, parse) <==> exists x :: x in s && parse(x) == Some(n)
  {
    if s != [] {
      var init, last := s[..|s| - 1], s[|s| - 1];
      assert s == init + [last];
      NumbersMembership(init, parse, n);
      if exists x :: x in s && parse(x) == Some(n) {
        var x :| x in s && parse(x) == Some(n);
        if x != last {
          assert x in init;
        }
      }
    }
  }

  function ConstatacaoOf(r: ChecklistAnswer): Option<int> {
    ParseConstatacao(r.numero)
  }

  function NcOf(nc: NonConformity): Option<int> {
    ParseOrZero(nc.numero, "NC")
  }

  function DetOf(d: Determination): Option<int> {
    ParseOrZero(d.numero, "D")
  }

  function ConstatacaoNumbers(rs: seq<ChecklistAnswer>): seq<int> {
    Numbers(rs, ConstatacaoOf)
  }

  function NcNumbers(ncs: seq<NonConformity>): seq<int> {
    Numbers(ncs, NcOf)
  }

  function DetNumbers(ds: seq<Determination>): seq<int> {
    Numbers(ds, DetOf)
  }

  function NextConstatacao(rs: seq<ChecklistAnswer>): int {
    NextAfter(ConstatacaoNumbers(rs))
  }

  function NextNc(ncs: seq<NonConformity>): int {
    NextAfter(NcNumbers(ncs))
  }

  function NextDet(ds: seq<Determination>): int {
    NextAfter(DetNumbers(ds))
  }

  /** gerarNumeroConstatacao */
  function GerarNumeroConstatacao(rs: seq<ChecklistAnswer>): string {
    Label("C", NextConstatacao(rs))
  }

  /** gerarNumeroNC */
  function GerarNumeroNC(ncs: seq<NonConformity>): string {
    Label("NC", NextNc(ncs))
  }

  /** gerarNumeroDeterminacao */
  function GerarNumeroDeterminacao(ds: seq<Determination>): string {
    Label("D", NextDet(ds))
  }

  datatype NumerationCounters = NumerationCounters(proximaConstatacao: int, proximaNC: int, proximaDeterminacao: int)

  /** Running maximum of the parsed values, as `Math.max(...numeros) + 1` computes it. */
  method NextByScan(xs: seq<int>) returns (r: int)
    ensures r == NextAfter(xs)
  {
    if |xs| == 0 {
      return 1;
    }
    var m := xs[0];
    var i := 1;
    while i < |xs|
      invariant 1 <= i <= |xs|
      invariant m in xs[..i]
      invariant forall j :: 0 <= j < i ==> xs[j] <= m
    {
      if xs[i] > m {
        m := xs[i];
      }
      i := i + 1;
    }
    assert xs[..i] == xs;
    r := m + 1;
    var n := NextAfter(xs);
    assert n - 1 in xs;
  }

  /**
    getNumerationCounters: its three fields are the numeric parts of the labels
    the three single generators return for the same records.
  */
  method GetNumerationCounters(rs: seq<ChecklistAnswer>, ncs: seq<NonConformity>, ds: seq<Determination>)
    returns (r: NumerationCounters)
    ensures GerarNumeroConstatacao(rs) == Label("C", r.proximaConstatacao)
    ensures GerarNumeroNC(ncs) == Label("NC", r.proximaNC)
    ensures GerarNumeroDeterminacao(ds) == Label("D", r.proximaDeterminacao)
  {
    var c := NextByScan(ConstatacaoNumbers(rs));
    var nc := NextByScan(NcNumbers(ncs));
    var d := NextByScan(DetNumbers(ds));
    r := NumerationCounters(c, nc, d);
  }

  /** With no parsable number among the records the next number is 1. */
  lemma NoneParsedGivesOne<T>(s: seq<T>, parse: T -> Option<int>)
    requires forall x :: x in s ==> parse(x).None?
    ensures NextAfter(Numbers(s, parse)) == 1
  {
    var ns := Numbers(s, parse);
    if |ns| > 0 {
      NumbersMembership(s, parse, ns[0]);
    }
  }

  /** When every record reads as 0 the next number is 1. */
  lemma AllZeroGivesOne<T>(s: seq<T>, parse: T -> Option<int>)
    requires forall x :: x in s ==> parse(x) == Some(0)
    ensures NextAfter(Numbers(s, parse)) == 1
  {
    var ns := Numbers(s, parse);
    if |ns| > 0 {
      var m := NextAfter(ns) - 1;
      NumbersMembership(s, parse, m);
    }
  }

  /**
    The next number is above every parsed existing number, and it is the
    largest one plus one: some record carries exactly the number below it.
  */
  lemma NextAboveAll<T>(s: seq<T>, parse: T -> Option<int>, x: T, n: int)
    requires x in s && parse(x) == Some(n)
    ensures n < NextAfter(Numbers(s, parse))
    ensures exists y :: y in s && parse(y) == Some(NextAfter(Numbers(s, parse)) - 1)
  {
    var ns := Numbers(s, parse);
    NumbersMembership(s, parse, n);
    NumbersMembership(s, parse, NextAfter(ns) - 1);
  }

  /** Two lists of records whose numbers agree as sets give the same next number. */
  lemma SameNumbersSameNext<T>(s: seq<T>, t: seq<T>, parse: T -> Option<int>)
    requires forall x :: x in s && parse(x).Some? ==> exists y :: y in t && parse(y) == parse(x)
    requires forall y :: y in t && parse(y).Some? ==> exists x :: x in s && parse(x) == parse(y)
    ensures NextAfter(Numbers(s, parse)) == NextAfter(Numbers(t, parse))
  {
    var xs, ys := Numbers(s, parse), Numbers(t, parse);
    forall n ensures n in xs <==> n in ys {
      NumbersMembership(s, parse, n);
      NumbersMembership(t, parse, n);
    }
    NextAfterDependsOnValues(xs, ys);
  }

  /** A record whose number does not parse changes nothing. */
  lemma UnparsedIgnored<T>(s: seq<T>, parse: T -> Option<int>, x: T)
    requires parse(x).None?
    ensures NextAfter(Numbers(s + [x], parse)) == NextAfter(Numbers(s, parse))
  {
    forall y | y in s + [x] && parse(y).Some?
      ensures exists z :: z in s && parse(z) == parse(y)
    {
      assert y in s;
    }
    forall y | y in s && parse(y).Some?
      ensures exists z :: z in s + [x] && parse(z) == parse(y)
    {
      assert y in s + [x];
    }
    SameNumbersSameNext(s + [x], s, parse);
  }

  /** Record order is irrelevant. */
  lemma OrderIrrelevant<T>(s: seq<T>, t: seq<T>, parse: T -> Option<int>)
    requires multiset(s) == multiset(t)
    ensures NextAfter(Numbers(s, parse)) == NextAfter(Numbers(t, parse))
  {
    forall y | y in s && parse(y).Some?
      ensures exists z :: z in t && parse(z) == parse(y)
    {
      assert y in multiset(t);
    }
    forall y | y in t && parse(y).Some?
      ensures exists z :: z in s && parse(z) == parse(y)
    {
      assert y in multiset(s);
    }
    SameNumbersSameNext(s, t, parse);
  }

  /** Adding a record that carries the next number advances the next number by one. */
  lemma AddingNextAdvances<T>(s: seq<T>, parse: T -> Option<int>, x: T)
    requires parse(x) == Some(NextAfter(Numbers(s, parse)))
    ensures NextAfter(Numbers(s + [x], parse)) == NextAfter(Numbers(s, parse)) + 1
  {
    var n := NextAfter(Numbers(s, parse));
    var xs := Numbers(s + [x], parse);
    NumbersMembership(s + [x], parse, n);
    forall v | v in xs ensures v <= n {
      NumbersMembership(s + [x], parse, v);
      var w :| w in s + [x] && parse(w) == Some(v);
      if w in s {
        NumbersMembership(s, parse, v);
      }
    }
    NumbersMembership(s + [x], parse, NextAfter(xs) - 1);
  }

  /** A stored constatação label reads back as its number. */
  lemma ConstatacaoOfLabel(r: ChecklistAnswer, n: int)
    requires r.numero == Some(Label("C", n))
    ensures ConstatacaoOf(r) == Some(n)
  {
    LabelReadsBack("C", n);
  }

  /** With no parsable constatação number the first label is "C1". */
  lemma FirstConstatacaoIsC1(rs: seq<ChecklistAnswer>)
    requires forall r :: r in rs ==> ParseConstatacao(r.numero).None?
    ensures GerarNumeroConstatacao(rs) == "C1"
  {
    NoneParsedGivesOne(rs, ConstatacaoOf);
    LabelOfOne("C");
  }

  /** The new constatação number is above every parsed existing one. */
  lemma NextExceedsEveryExisting(rs: seq<ChecklistAnswer>, r: ChecklistAnswer, n: int)
    requires r in rs && ParseConstatacao(r.numero) == Some(n)
    ensures n < NextConstatacao(rs)
  {
    NextAboveAll(rs, ConstatacaoOf, r, n);
  }

  lemma NumbersOfPair<T>(x: T, y: T, parse: T -> Option<int>, i: int, j: int)
    requires parse(x) == Some(i) && parse(y) == Some(j)
    ensures Numbers([x, y], parse) == [i, j]
  {
    assert [x, y][..1] == [x];
    assert [x][..0] == [];
  }

  /**
    Labels Cn and C(n+2) in use: the next label is C(n+3), so the gap at
    C(n+1) is not refilled (with n = 1: C1 and C3 give C4).
  */
  lemma GapIsNotRefilled(a: ChecklistAnswer, b: ChecklistAnswer, n: int)
    requires a.numero == Some(Label("C", n))
    requires b.numero == Some(Label("C", n + 2))
    ensures GerarNumeroConstatacao([a, b]) == Label("C", n + 3)
  {
    ConstatacaoOfLabel(a, n);
    ConstatacaoOfLabel(b, n + 2);
    NumbersOfPair(a, b, ConstatacaoOf, n, n + 2);
    NextAfterOfGap(n);
  }

  lemma NextAfterOfGap(n: int)
    ensures NextAfter([n, n + 2]) == n + 3
  {
    assert [n, n + 2][..1] == [n];
  }

  /** Records with a null or empty label, or a non-numeric one, change nothing. */
  lemma UnparsableRecordIsIgnored(rs: seq<ChecklistAnswer>, r: ChecklistAnswer)
    requires ParseConstatacao(r.numero).None?
    ensures GerarNumeroConstatacao(rs + [r]) == GerarNumeroConstatacao(rs)
  {
    UnparsedIgnored(rs, ConstatacaoOf, r);
  }

  /** An absent label reads as 0 under `|| '0'`. */
  lemma AbsentLabelReadsZero(prefix: string)
    ensures ParseOrZero(None, prefix) == Some(0)
  {
    ParseIntOfIntToString(0);
    assert IntToString(0) == "0";
  }

  lemma UnlabelledNcsGiveOne(ncs: seq<NonConformity>)
    requires forall nc :: nc in ncs ==> nc.numero.None?
    ensures NextNc(ncs) == 1
  {
    forall nc | nc in ncs ensures NcOf(nc) == Some(0) {
      AbsentLabelReadsZero("NC");
    }
    AllZeroGivesOne(ncs, NcOf);
  }

  lemma UnlabelledDetsGiveOne(ds: seq<Determination>)
    requires forall d :: d in ds ==> d.numero.None?
    ensures NextDet(ds) == 1
  {
    forall d | d in ds ensures DetOf(d) == Some(0) {
      AbsentLabelReadsZero("D");
    }
    AllZeroGivesOne(ds, DetOf);
  }

  /** NCs and determinations without a label read as number 0, so the next ones are NC1/D1. */
  lemma MissingLabelsReadAsZero(ncs: seq<NonConformity>, ds: seq<Determination>)
    requires forall nc :: nc in ncs ==> nc.numero.None?
    requires forall d :: d in ds ==> d.numero.None?
    ensures GerarNumeroNC(ncs) == "NC1"
    ensures GerarNumeroDeterminacao(ds) == "D1"
  {
    UnlabelledNcsGiveOne(ncs);
    UnlabelledDetsGiveOne(ds);
    LabelOfOne("NC");
    LabelOfOne("D");
  }

  /** Reordering the input records does not change the label. */
  lemma PermutationInvariant(rs: seq<ChecklistAnswer>, ss: seq<ChecklistAnswer>)
    requires multiset(rs) == multiset(ss)
    ensures GerarNumeroConstatacao(rs) == GerarNumeroConstatacao(ss)
  {
    OrderIrrelevant(rs, ss, ConstatacaoOf);
  }

  /** Storing the returned label and asking again yields exactly the next integer. */
  lemma AppendingReturnedLabelAdvancesByOne(rs: seq<ChecklistAnswer>, r: ChecklistAnswer)
    requires r.numero == Some(GerarNumeroConstatacao(rs))
    ensures NextConstatacao(rs + [r]) == NextConstatacao(rs) + 1
  {
    ConstatacaoOfLabel(r, NextConstatacao(rs));
    AddingNextAdvances(rs, ConstatacaoOf, r);
  }
}
