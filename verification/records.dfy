/**
  The records of the local database (functions/dataService.ts) as the
  service handles them: a record maps field names to JSON-like values, and a
  table maps ids to records. `applyFilter` and the per-unit counts are
  defined here.
*/
module Records {
  import opened Wrappers
  import opened Text
  import opened Entities

  /**
    A field name. The fields the service itself reads or writes are named
    constructors; `Other` stands for any other field a caller's data carries.
    A key `Other(n)` whose `n` is the name of a named constructor would print
    the same field name twice; the model takes such keys to be absent, see
    `WellFormedKey`.
  */
  datatype Key =
    | Id | LocalId | SyncStatus | SyncError | CreatedAt | UpdatedAt
    | UnidadeFiscalizadaId | ItemChecklistId | Pergunta | Resposta | GeraNc | NumeroConstatacao
    | Observacao | RespostaChecklistId | NumeroNc | ArtigoPortaria | Descricao | Fotos
    | NaoConformidadeId | NumeroDeterminacao | PrazoDias | Status | NumeroRecomendacao | Origem
    | Other(field: string)
  {
    /** The field's name in the JSON of the record. */
    function name(): string {
      match this
      case Id => "id"
      case LocalId => "_localId"
      case SyncStatus => "_syncStatus"
      case SyncError => "_syncError"
      case CreatedAt => "created_at"
      case UpdatedAt => "updated_at"
      case UnidadeFiscalizadaId => "unidade_fiscalizada_id"
      case ItemChecklistId => "item_checklist_id"
      case Pergunta => "pergunta"
      case Resposta => "resposta"
      case GeraNc => "gera_nc"
      case NumeroConstatacao => "numero_constatacao"
      case Observacao => "observacao"
      case RespostaChecklistId => "resposta_checklist_id"
      case NumeroNc => "numero_nc"
      case ArtigoPortaria => "artigo_portaria"
      case Descricao => "descricao"
      case Fotos => "fotos"
      case NaoConformidadeId => "nao_conformidade_id"
      case NumeroDeterminacao => "numero_determinacao"
      case PrazoDias => "prazo_dias"
      case Status => "status"
      case NumeroRecomendacao => "numero_recomendacao"
      case Origem => "origem"
      case Other(n) => n
    }
  }

  /** The named field keys, each once. */
  const NamedKeys: seq<Key> := [
    Id, LocalId, SyncStatus, SyncError, CreatedAt, UpdatedAt,
    UnidadeFiscalizadaId, ItemChecklistId, Pergunta, Resposta, GeraNc, NumeroConstatacao,
    Observacao, RespostaChecklistId, NumeroNc, ArtigoPortaria, Descricao, Fotos,
    NaoConformidadeId, NumeroDeterminacao, PrazoDias, Status, NumeroRecomendacao, Origem]

  /** A key that does not spell a named field under `Other`. */
  predicate WellFormedKey(k: Key) {
    k.Other? ==> forall j :: 0 <= j < |NamedKeys| ==> NamedKeys[j].name() != k.field
  }

  lemma NamedKeyListed(k: Key)
    requires !k.Other?
    ensures exists j :: 0 <= j < |NamedKeys| && NamedKeys[j] == k
  {
    match k
    case Id => assert NamedKeys[0] == k;
    case LocalId => assert NamedKeys[1] == k;
    case SyncStatus => assert NamedKeys[2] == k;
    case SyncError => assert NamedKeys[3] == k;
    case CreatedAt => assert NamedKeys[4] == k;
    case UpdatedAt => assert NamedKeys[5] == k;
    case UnidadeFiscalizadaId => assert NamedKeys[6] == k;
    case ItemChecklistId => assert NamedKeys[7] == k;
    case Pergunta => assert NamedKeys[8] == k;
    case Resposta => assert NamedKeys[9] == k;
    case GeraNc => assert NamedKeys[10] == k;
    case NumeroConstatacao => assert NamedKeys[11] == k;
    case Observacao => assert NamedKeys[12] == k;
    case RespostaChecklistId => assert NamedKeys[13] == k;
    case NumeroNc => assert NamedKeys[14] == k;
    case ArtigoPortaria => assert NamedKeys[15] == k;
    case Descricao => assert NamedKeys[16] == k;
    case Fotos => assert NamedKeys[17] == k;
    case NaoConformidadeId => assert NamedKeys[18] == k;
    case NumeroDeterminacao => assert NamedKeys[19] == k;
    case PrazoDias => assert NamedKeys[20] == k;
    case Status => assert NamedKeys[21] == k;
    case NumeroRecomendacao => assert NamedKeys[22] == k;
    case Origem => assert NamedKeys[23] == k;
  }

  /** A well-formed `Other` key never prints the name of a named key. */
  lemma OtherNotNamed(o: Key, k: Key)
    requires WellFormedKey(o) && o.Other? && !k.Other?
    ensures o.name() != k.name()
  {
    NamedKeyListed(k);
    var j :| 0 <= j < |NamedKeys| && NamedKeys[j] == k;
    assert NamedKeys[j].name() != o.field;
  }

  /** Among well-formed keys, two keys print the same field name only if they are the same key. */
  lemma NameInjective(a: Key, b: Key)
    requires WellFormedKey(a) && WellFormedKey(b)
    ensures a.name() == b.name() <==> a == b
  {
    if a.Other? && !b.Other? {
      OtherNotNamed(a, b);
    } else if !a.Other? && b.Other? {
      OtherNotNamed(b, a);
    }
  }

  /** A field value. `Stamp` is a `Date`, kept as its day number. */
  datatype Value = Undefined | Null | Str(s: string) | Num(n: int) | Bool(b: bool) | Stamp(day: int) | Arr(items: seq<Value>)

  type Record = map<Key, Value>

  /** `record[key]`: a missing field reads as `undefined`. */
  function Lookup(r: Record, key: Key): Value {
    if key in r then r[key] else Undefined
  }

  /** JavaScript truthiness of a value. */
  predicate IsTruthy(v: Value) {
    match v
    case Undefined => false
    case Null => false
    case Str(s) => s != []
    case Num(n) => n != 0
    case Bool(b) => b
    case Stamp(_) => true
    case Arr(_) => true
  }

  /** `a || b` on values. */
  function Or(a: Value, b: Value): Value {
    if IsTruthy(a) then a else b
  }

  /** A string field that may be absent. */
  function OptStr(o: Option<string>): Value {
    match o
    case Some(s) => Str(s)
    case None => Undefined
  }

  /**
    `JSON.parse(JSON.stringify(record))` as far as the queue's payloads need it:
    fields holding `undefined` are dropped.
  */
  function Json(r: Record): (j: Record)
    ensures forall k :: k in j <==> k in r && r[k] != Undefined
    ensures forall k :: k in j ==> j[k] == r[k]
  {
    map k | k in r && r[k] != Undefined :: r[k]
  }

  /** The filter's every entry equals the item's field, with `===` on values. */
  predicate Matches(item: Record, filter: map<Key, Value>) {
    forall k :: k in filter ==> Lookup(item, k) == filter[k]
  }

  /** applyFilter: no filter, or an empty one, returns the data as it is. */
  function ApplyFilter(data: seq<Record>, filter: Option<map<Key, Value>>): (r: seq<Record>)
    ensures filter.None? || |filter.value| == 0 ==> r == data
    ensures filter.Some? ==> forall i :: 0 <= i < |r| ==> Matches(r[i], filter.value)
  {
    if filter.None? || |filter.value| == 0 then data
    else Filter(data, (item: Record) => Matches(item, filter.value))
  }

  /** An item is kept exactly when it is in the data and matches every filter entry. */
  lemma ApplyFilterMembership(data: seq<Record>, filter: map<Key, Value>, item: Record)
    ensures item in ApplyFilter(data, Some(filter)) <==> item in data && Matches(item, filter)
  {
    if |filter| != 0 {
      FilterMembership(data, (x: Record) => Matches(x, filter), item);
    }
  }

  lemma {:induction false} FilterConcat<T>(a: seq<T>, b: seq<T>, p: T -> bool)
    ensures Filter(a + b, p) == Filter(a, p) + Filter(b, p)
    decreases |b|
  {
    if b == [] {
      assert a + b == a;
    } else {
      var b' := b[..|b| - 1];
      var x := b[|b| - 1];
      var tail := if p(x) then [x] else [];
      assert (a + b)[..|a + b| - 1] == a + b';
      assert (a + b)[|a + b| - 1] == x;
      FilterConcat(a, b', p);
      calc {
        Filter(a + b, p);
        Filter(a + b', p) + tail;
        (Filter(a, p) + Filter(b', p)) + tail;
        Filter(a, p) + (Filter(b', p) + tail);
        Filter(a, p) + Filter(b, p);
      }
    }
  }

  /**
    applyFilter keeps the order of the data: filtering a concatenation is
    the concatenation of the filtered parts.
  */
  lemma ApplyFilterKeepsOrder(a: seq<Record>, b: seq<Record>, filter: Option<map<Key, Value>>)
    ensures ApplyFilter(a + b, filter) == ApplyFilter(a, filter) + ApplyFilter(b, filter)
  {
    if !(filter.None? || |filter.value| == 0) {
      FilterConcat(a, b, (item: Record) => Matches(item, filter.value));
    }
  }

  /** Filtering twice with the same filter changes nothing more. */
  lemma {:induction false} ApplyFilterIdempotent(data: seq<Record>, filter: Option<map<Key, Value>>)
    ensures ApplyFilter(ApplyFilter(data, filter), filter) == ApplyFilter(data, filter)
    decreases |data|
  {
    if !(filter.None? || |filter.value| == 0) && data != [] {
      var p := (item: Record) => Matches(item, filter.value);
      var init := data[..|data| - 1];
      var last := data[|data| - 1];
      ApplyFilterIdempotent(init, filter);
      assert data == init + [last];
      ApplyFilterKeepsOrder(ApplyFilter(init, filter), if p(last) then [last] else [], filter);
      assert Filter([last], p) == (if p(last) then [last] else []) by {
        assert [last][..0] == [];
      }
      if p(last) {
        assert Filter([last], p) == [last];
      }
    }
  }

  /** `r.unidade_fiscalizada_id === unidadeId`: the filter `readLocalData` applies. */
  predicate OfUnit(r: Record, unidadeId: Value) {
    Lookup(r, UnidadeFiscalizadaId) == unidadeId
  }

  /** The keys of the rows that belong to the unit. */
  function UnitKeys(rows: map<Value, Record>, unidadeId: Value): (ks: set<Value>)
    ensures forall k :: k in ks <==> k in rows && OfUnit(rows[k], unidadeId)
  {
    set k | k in rows && OfUnit(rows[k], unidadeId)
  }

  /** How many rows of a table belong to the unit. */
  function CountOfUnit(rows: map<Value, Record>, unidadeId: Value): nat {
    |UnitKeys(rows, unidadeId)|
  }

  predicate IsSimOrNao(r: Record) {
    Lookup(r, Resposta) == Str("SIM") || Lookup(r, Resposta) == Str("NAO")
  }

  /** A SIM/NAO answer whose `pergunta` is a string that is not blank. */
  predicate HasConstatacao(r: Record) {
    IsSimOrNao(r) && Lookup(r, Pergunta).Str? && Trim(Lookup(r, Pergunta).s) != []
  }

  /** `r.pergunta?.trim()` throws when `pergunta` is present but is not a string. */
  predicate TrimThrows(r: Record) {
    IsSimOrNao(r) && !(Lookup(r, Pergunta).Undefined? || Lookup(r, Pergunta).Null? || Lookup(r, Pergunta).Str?)
  }

  function AnswersWithConstatacao(rows: map<Value, Record>, unidadeId: Value): nat {
    |set k | k in rows && OfUnit(rows[k], unidadeId) && HasConstatacao(rows[k])|
  }

  /** Adding a row under a fresh key adds one to the unit's count when the row belongs to the unit. */
  lemma CountAfterPut(rows: map<Value, Record>, key: Value, rec: Record, unidadeId: Value)
    requires key !in rows
    ensures CountOfUnit(rows[key := rec], unidadeId) == CountOfUnit(rows, unidadeId) + (if OfUnit(rec, unidadeId) then 1 else 0)
  {
    if OfUnit(rec, unidadeId) {
      UnitKeysAfterPut(rows, key, rec, unidadeId);
    } else {
      assert UnitKeys(rows[key := rec], unidadeId) == UnitKeys(rows, unidadeId);
    }
  }

  /** A row of the unit added under a fresh key when `cond` holds adds one to the count, and nothing otherwise. */
  lemma CountAfterPutIf(rows: map<Value, Record>, after: map<Value, Record>, cond: bool, key: Value, rec: Record, unidadeId: Value)
    requires key !in rows && OfUnit(rec, unidadeId)
    requires after == if cond then rows[key := rec] else rows
    ensures CountOfUnit(after, unidadeId) == CountOfUnit(rows, unidadeId) + (if cond then 1 else 0)
  {
    if cond {
      CountAfterPut(rows, key, rec, unidadeId);
    }
  }

  /** A row of the unit under a fresh key adds its key to the unit's keys. */
  lemma UnitKeysAfterPut(rows: map<Value, Record>, key: Value, rec: Record, unidadeId: Value)
    requires key !in rows && OfUnit(rec, unidadeId)
    ensures UnitKeys(rows[key := rec], unidadeId) == UnitKeys(rows, unidadeId) + {key}
    ensures key !in UnitKeys(rows, unidadeId)
  {
  }
}
