/**
  The cross-unit offsets of functions/calcularNumeracao.ts: the numbers C, NC,
  D and R already used by the units of the same inspection that were created
  before the current one and are finalised.
*/
module CrossUnitOffsets {
  import opened Wrappers
  import opened Text
  import opened Entities
  import opened CounterNumbering

  /** Every `filter(..., 'created_date', 500)` of this function returns at most 500 records. */
  const FetchLimit: nat := 500

  /**
    The remote data the function reads: the unit table in `created_date`
    order, and the two per-unit queries, whose results the remote service
    computes and which are therefore parameters of the model.
  */
  datatype Store = Store(
    units: seq<InspectedUnit>,
    detsOf: string -> seq<Determination>,
    recsOf: string -> seq<Recommendation>)

  /** The request: whether a user is signed in, and the two body fields. */
  datatype Request = Request(user: bool, fiscalizacaoId: Option<string>, unidadeAtualId: Option<string>)

  /** 401, 400, 500 or `{ success: true, contadores }`. */
  datatype Response = Unauthorized | BadRequest | ServerError | Success(contadores: Counters)

  /** `{ fiscalizacao_id }` as a query filter. */
  function InInspection(fiscalizacaoId: string): InspectedUnit -> bool {
    (u: InspectedUnit) => u.fiscalizacaoId == fiscalizacaoId
  }

  /** The units of the inspection, as the first query returns them. */
  function UnitsOf(st: Store, fiscalizacaoId: string): seq<InspectedUnit> {
    Take(Filter(st.units, InInspection(fiscalizacaoId)), FetchLimit)
  }

  /** `units.findIndex(u => u.id === id)` */
  function FindIndex(units: seq<InspectedUnit>, id: string): (k: int)
    ensures -1 <= k < |units|
    ensures k == -1 <==> forall u :: u in units ==> u.id != id
    ensures k >= 0 ==> units[k].id == id && forall j :: 0 <= j < k ==> units[j].id != id
  {
    if units == [] then -1
    else if units[0].id == id then 0
    else
      var k := FindIndex(units[1..], id);
      if k == -1 then -1 else k + 1
  }

  /** `s.slice(0, end)`: a negative end counts from the back. */
  function SliceTo<T>(s: seq<T>, end: int): (r: seq<T>)
    ensures end >= 0 ==> r == s[..if end < |s| then end else |s|]
    ensures end < 0 ==> r == s[..if |s| + end > 0 then |s| + end else 0]
  {
    if end >= 0 then s[..if end < |s| then end else |s|]
    else s[..if |s| + end > 0 then |s| + end else 0]
  }

  /** `todasUnidades.slice(0, todasUnidades.findIndex(u => u.id === id))` */
  function Before(units: seq<InspectedUnit>, id: string): seq<InspectedUnit> {
    SliceTo(units, FindIndex(units, id))
  }

  predicate IsFinal(u: InspectedUnit) {
    u.status == Finalizada
  }

  function Min(a: int, b: int): int {
    if a < b then a else b
  }

  /**
    The length of `Determinacao.filter({ unidade_fiscalizada_id }, 'created_date', 500)`:
    what the remote query returns for the unit, but no more than 500 records.
  */
  function DetsFetched(st: Store, unitId: string): nat {
    Min(|st.detsOf(unitId)|, FetchLimit)
  }

  /** The same for `Recomendacao.filter(...)`. */
  function RecsFetched(st: Store, unitId: string): nat {
    Min(|st.recsOf(unitId)|, FetchLimit)
  }

  /** What the first loop adds for one unit: its cached totals, a missing total reading as 0. */
  function TotalsOf(u: InspectedUnit): Counters {
    if IsFinal(u) then Counters(u.totalConstatacoes.GetOr(0), u.totalNcs.GetOr(0), 0, 0) else Zero
  }

  /** What the second loop adds for one unit: the records the two limited queries return. */
  function RecordsOf(u: InspectedUnit, st: Store): Counters {
    if IsFinal(u) then Counters(0, 0, DetsFetched(st, u.id), RecsFetched(st, u.id)) else Zero
  }

  /** `RecordsOf` against a fixed store, as a function value. */
  function RecordsIn(st: Store): InspectedUnit -> Counters {
    u => RecordsOf(u, st)
  }

  /**
    What one earlier unit adds to the counters: nothing unless finalised;
    otherwise its cached totals and its determination and recommendation counts.
  */
  function Contribution(u: InspectedUnit, st: Store): Counters {
    Add(TotalsOf(u), RecordsOf(u, st))
  }

  function ContributionIn(st: Store): InspectedUnit -> Counters {
    u => Contribution(u, st)
  }

  /** The counters `f` gives the units, added up in order. */
  function Sum<T>(s: seq<T>, f: T -> Counters): Counters {
    if s == [] then Zero else Add(Sum(s[..|s| - 1], f), f(s[|s| - 1]))
  }

  /** Extending a prefix by one element adds that element's counters. */
  lemma SumOfLongerPrefix<T>(s: seq<T>, i: nat, f: T -> Counters)
    requires i < |s|
    ensures Sum(s[..i + 1], f) == Add(Sum(s[..i], f), f(s[i]))
  {
    assert s[..i + 1][..i] == s[..i];
  }

  /** The reference sum: every earlier unit's contribution added up. */
  function Offsets(units: seq<InspectedUnit>, st: Store): Counters {
    Sum(units, ContributionIn(st))
  }

  lemma {:induction false} SumOfPointwiseAdd<T>(s: seq<T>, f: T -> Counters, g: T -> Counters, h: T -> Counters)
    requires forall x :: h(x) == Add(f(x), g(x))
    ensures Sum(s, h) == Add(Sum(s, f), Sum(s, g))
  {
    if s != [] {
      SumOfPointwiseAdd(s[..|s| - 1], f, g, h);
    }
  }

  lemma {:induction false} SumAppend<T>(a: seq<T>, b: seq<T>, f: T -> Counters)
    ensures Sum(a + b, f) == Add(Sum(a, f), Sum(b, f))
  {
    if b == [] {
      assert a + b == a;
    } else {
      var init := b[..|b| - 1];
      assert (a + b)[..|a + b| - 1] == a + init;
      assert (a + b)[|a + b| - 1] == b[|b| - 1];
      SumAppend(a, init, f);
    }
  }

  lemma SumOfSingleton<T>(x: T, f: T -> Counters)
    ensures Sum([x], f) == f(x)
  {
    var none: seq<T> := [];
    assert [x][..0] == none;
    assert Sum([x], f) == Add(Sum(none, f), f(x));
  }

  /** An element that adds nothing can be dropped wherever it stands. */
  lemma {:induction false} SumSkipsZero<T>(a: seq<T>, x: T, b: seq<T>, f: T -> Counters)
    requires f(x) == Zero
    ensures Sum(a + [x] + b, f) == Sum(a + b, f)
  {
    SumOfSingleton(x, f);
    SumAppend(a, [x], f);
    SumAppend(a + [x], b, f);
    SumAppend(a, b, f);
  }

  /** Leaving out elements that add nothing does not change the sum. */
  lemma {:induction false} SumOfFilter<T>(s: seq<T>, p: T -> bool, f: T -> Counters)
    requires forall x :: !p(x) ==> f(x) == Zero
    ensures Sum(Filter(s, p), f) == Sum(s, f)
  {
    if s != [] {
      var init, last := s[..|s| - 1], s[|s| - 1];
      SumOfFilter(init, p, f);
      if p(last) {
        assert Filter(s, p) == Filter(init, p) + [last];
        SumAppend(Filter(init, p), [last], f);
        SumOfSingleton(last, f);
      } else {
        assert Filter(s, p) == Filter(init, p);
      }
    }
  }

  /** The two loops together compute the reference sum: the totals plus the record counts. */
  lemma OffsetsSplit(units: seq<InspectedUnit>, st: Store)
    ensures Offsets(units, st) == Add(Sum(units, TotalsOf), Sum(units, RecordsIn(st)))
  {
    SumOfPointwiseAdd(units, TotalsOf, RecordsIn(st), ContributionIn(st));
  }

  /** The offsets of a concatenation are the sum of the parts' offsets. */
  lemma OffsetsAppend(a: seq<InspectedUnit>, b: seq<InspectedUnit>, st: Store)
    ensures Offsets(a + b, st) == Add(Offsets(a, st), Offsets(b, st))
  {
    SumAppend(a, b, ContributionIn(st));
  }

  /** A finalised unit adds the lengths of its two limited queries. */
  lemma FinalizedRecords(u: InspectedUnit, st: Store)
    requires IsFinal(u)
    ensures RecordsIn(st)(u) == Counters(0, 0, DetsFetched(st, u.id), RecsFetched(st, u.id))
  {
  }

  /** A finalised unit adds its cached totals and the lengths of its two limited queries. */
  lemma FinalizedContribution(u: InspectedUnit, st: Store)
    requires IsFinal(u)
    ensures Contribution(u, st) ==
      Counters(u.totalConstatacoes.GetOr(0), u.totalNcs.GetOr(0), DetsFetched(st, u.id), RecsFetched(st, u.id))
  {
    assert TotalsOf(u) == Counters(u.totalConstatacoes.GetOr(0), u.totalNcs.GetOr(0), 0, 0);
    assert RecordsOf(u, st) == Counters(0, 0, DetsFetched(st, u.id), RecsFetched(st, u.id));
  }

  /** A unit that is not finalised adds nothing. */
  lemma NonFinalizedAddsZero(u: InspectedUnit, st: Store)
    requires !IsFinal(u)
    ensures Contribution(u, st) == Zero
  {
    assert TotalsOf(u) == Zero;
    assert RecordsOf(u, st) == Zero;
  }

  /** Units that are not finalised contribute nothing, wherever they stand. */
  lemma {:induction false} NonFinalizedContributeNothing(a: seq<InspectedUnit>, u: InspectedUnit, b: seq<InspectedUnit>, st: Store)
    requires !IsFinal(u)
    ensures Offsets(a + [u] + b, st) == Offsets(a + b, st)
  {
    assert ContributionIn(st)(u) == Zero by {
      NonFinalizedAddsZero(u, st);
    }
    SumSkipsZero(a, u, b, ContributionIn(st));
  }

  /** Summing the finalised units only gives the same offsets as summing them all. */
  lemma OffsetsOfFinalized(units: seq<InspectedUnit>, st: Store)
    ensures Offsets(Filter(units, IsFinal), st) == Offsets(units, st)
  {
    forall u | !IsFinal(u)
      ensures ContributionIn(st)(u) == Zero
    {
      NonFinalizedAddsZero(u, st);
    }
    SumOfFilter(units, IsFinal, ContributionIn(st));
  }

  lemma {:induction false} FilterKeepsAll<T>(s: seq<T>, p: T -> bool)
    requires forall i :: 0 <= i < |s| ==> p(s[i])
    ensures Filter(s, p) == s
  {
    if s != [] {
      var init := s[..|s| - 1];
      FilterKeepsAll(init, p);
      assert init + [s[|s| - 1]] == s;
    }
  }

  /** The units strictly before the current one; with the id absent, all but the last. */
  lemma BeforeIsPrefix(units: seq<InspectedUnit>, id: string)
    ensures (exists u :: u in units && u.id == id) ==>
      exists k :: 0 <= k < |units| && units[k].id == id && Before(units, id) == units[..k] &&
        forall j :: 0 <= j < k ==> units[j].id != id
    ensures (forall u :: u in units ==> u.id != id) ==>
      Before(units, id) == if units == [] then [] else units[..|units| - 1]
  {
    var k := FindIndex(units, id);
    if k >= 0 {
      assert Before(units, id) == units[..k];
    }
  }

  /** The current unit is the inspection's first: every counter is 0. */
  lemma FirstUnitStartsAtZero(units: seq<InspectedUnit>, st: Store)
    requires |units| > 0
    ensures Before(units, units[0].id) == []
    ensures Offsets(Before(units, units[0].id), st) == Zero
  {
  }

  /** Three units of one inspection, the third being the one whose numbering starts. */
  lemma ThreeUnitsOfOneInspection(fid: string, u1: InspectedUnit, u2: InspectedUnit, u3: InspectedUnit, st: Store)
    requires st.units == [u1, u2, u3]
    requires u1.fiscalizacaoId == fid && u2.fiscalizacaoId == fid && u3.fiscalizacaoId == fid
    requires u1.id != u3.id && u2.id != u3.id
    ensures Before(UnitsOf(st, fid), u3.id) == [u1, u2]
  {
    FilterKeepsAll(st.units, InInspection(fid));
    assert [u1, u2, u3][..2] == [u1, u2];
    assert FindIndex(st.units, u3.id) == 2 by {
      assert st.units[1..] == [u2, u3];
      assert st.units[1..][1..] == [u3];
    }
  }

  /** A finalised unit with known totals and query lengths adds exactly those. */
  lemma FinalizedUnitAdds(u: InspectedUnit, st: Store, c: int, nc: int, d: nat, r: nat)
    requires IsFinal(u) && u.totalConstatacoes == Some(c) && u.totalNcs == Some(nc)
    requires |st.detsOf(u.id)| == d <= FetchLimit && |st.recsOf(u.id)| == r <= FetchLimit
    ensures Contribution(u, st) == Counters(c, nc, d, r)
  {
    FinalizedContribution(u, st);
  }

  /**
    The first loop: `totalC += u.total_constatacoes || 0` and
    `totalNC += u.total_ncs || 0` over the finalised units.
  */
  method AddCachedTotals(finalizadas: seq<InspectedUnit>) returns (c: int, nc: int)
    requires forall i :: 0 <= i < |finalizadas| ==> IsFinal(finalizadas[i])
    ensures Sum(finalizadas, TotalsOf) == Counters(c, nc, 0, 0)
  {
    c, nc := 0, 0;
    var i := 0;
    while i < |finalizadas|
      invariant 0 <= i <= |finalizadas|
      invariant Sum(finalizadas[..i], TotalsOf) == Counters(c, nc, 0, 0)
    {
      var u := finalizadas[i];
      SumOfLongerPrefix(finalizadas, i, TotalsOf);
      assert IsFinal(u);
      c := c + u.totalConstatacoes.GetOr(0);
      nc := nc + u.totalNcs.GetOr(0);
      i := i + 1;
    }
    assert finalizadas[..i] == finalizadas;
  }

  /**
    The second loop: for each finalised unit, add the lengths of its two
    limited determination and recommendation queries.
  */
  method CountRecords(finalizadas: seq<InspectedUnit>, st: Store) returns (d: int, r: int)
    requires forall i :: 0 <= i < |finalizadas| ==> IsFinal(finalizadas[i])
    ensures Sum(finalizadas, RecordsIn(st)) == Counters(0, 0, d, r)
  {
    d, r := 0, 0;
    var j := 0;
    while j < |finalizadas|
      invariant 0 <= j <= |finalizadas|
      invariant Sum(finalizadas[..j], RecordsIn(st)) == Counters(0, 0, d, r)
    {
      var id := finalizadas[j].id;
      var dets, recs := DetsFetched(st, id), RecsFetched(st, id);
      assert Sum(finalizadas[..j + 1], RecordsIn(st)) == Counters(0, 0, d + dets, r + recs) by {
        SumOfLongerPrefix(finalizadas, j, RecordsIn(st));
        FinalizedRecords(finalizadas[j], st);
      }
      d, r := d + dets, r + recs;
      j := j + 1;
    }
    assert finalizadas[..j] == finalizadas;
  }

  /**
    calcularNumeracao: authentication, the 400 check, the two loops over the
    earlier finalised units, and the 500 that any failed read produces.
    `store` is `None` when a remote read throws.
  */
  method CalcularNumeracao(req: Request, store: Option<Store>) returns (resp: Response)
    ensures !req.user ==> resp == Unauthorized
    ensures req.user && !(Truthy(req.fiscalizacaoId) && Truthy(req.unidadeAtualId)) ==> resp == BadRequest
    ensures req.user && Truthy(req.fiscalizacaoId) && Truthy(req.unidadeAtualId) && store.None? ==>
      resp == ServerError
    ensures req.user && Truthy(req.fiscalizacaoId) && Truthy(req.unidadeAtualId) && store.Some? ==>
      resp == Success(Offsets(Before(UnitsOf(store.value, req.fiscalizacaoId.value), req.unidadeAtualId.value), store.value))
  {
    if !req.user {
      return Unauthorized;
    }
    if !Truthy(req.fiscalizacaoId) || !Truthy(req.unidadeAtualId) {
      return BadRequest;
    }
    if store.None? {
      return ServerError;
    }
    var st := store.value;
    var todas := UnitsOf(st, req.fiscalizacaoId.value);
    var anteriores := SliceTo(todas, FindIndex(todas, req.unidadeAtualId.value));
    if |anteriores| == 0 {
      return Success(Zero);
    }
    var finalizadas := Filter(anteriores, IsFinal);
    var c, nc := AddCachedTotals(finalizadas);
    var d, r := CountRecords(finalizadas, st);
    OffsetsSplit(finalizadas, st);
    OffsetsOfFinalized(anteriores, st);
    resp := Success(Counters(c, nc, d, r));
  }
}
