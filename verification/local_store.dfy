/**
  The local-first half of functions/dataService.ts: the entity-to-table
  mapping, `applyFilter`, `read`, the writes `create`/`update`/`delete` that
  change a local table and enqueue one sync operation each, the count-based
  `calcularProximaNumeracao`, and `createRespostaComNCeDeterminacao`.

  A record is a map from field names to JSON-like values. The local tables,
  the sync queue and the id mappings are maps keyed as the IndexedDB schema
  keys them. Fresh ids (`crypto.randomUUID()`) and the clock (`new Date()`)
  are parameters.
*/
module LocalStore {
  import opened Wrappers
  import opened Text
  import opened Entities
  import opened Phrasing
  import opened Records

  /** The local tables of the entities, as the IndexedDB schema names them. */
  datatype TableId =
    | Municipios | PrestadoresServico | TiposUnidade | ItensChecklist | Fiscalizacoes | UnidadesFiscalizadas
    | RespostasChecklist | NaoConformidades | Determinacoes | Recomendacoes | ConstatacoesManuais
  {
    /** The table's name in the schema. */
    function name(): string {
      match this
      case Municipios => "municipios"
      case PrestadoresServico => "prestadores_servico"
      case TiposUnidade => "tipos_unidade"
      case ItensChecklist => "item_checklist"
      case Fiscalizacoes => "fiscalizacoes"
      case UnidadesFiscalizadas => "unidades_fiscalizadas"
      case RespostasChecklist => "respostas_checklist"
      case NaoConformidades => "nao_conformidades"
      case Determinacoes => "determinacoes"
      case Recomendacoes => "recomendacoes"
      case ConstatacoesManuais => "constatacoes_manuais"
    }
  }

  /** An entry of `entityMappings`. */
  datatype Mapping = Mapping(table: TableId, isReference: bool)

  /** `entityMappings`, keyed by entity name. */
  const Mappings: map<string, Mapping> := map[
    "Municipio" := Mapping(Municipios, true),
    "PrestadorServico" := Mapping(PrestadoresServico, true),
    "TipoUnidade" := Mapping(TiposUnidade, true),
    "ItemChecklist" := Mapping(ItensChecklist, true),
    "Fiscalizacao" := Mapping(Fiscalizacoes, false),
    "UnidadeFiscalizada" := Mapping(UnidadesFiscalizadas, false),
    "RespostaChecklist" := Mapping(RespostasChecklist, false),
    "NaoConformidade" := Mapping(NaoConformidades, false),
    "Determinacao" := Mapping(Determinacoes, false),
    "Recomendacao" := Mapping(Recomendacoes, false),
    "ConstatacaoManual" := Mapping(ConstatacoesManuais, false)]

  /** The eleven entity names the service knows. */
  const KnownEntities: set<string> := Mappings.Keys

  /** `entityMappings[entityName]` */
  function EntityMapping(name: string): (m: Option<Mapping>)
  {
    if name in Mappings then Some(Mappings[name]) else None
  }

  function UnmappedError(name: string): string {
    "Entity " + name + " não mapeada"
  }

  /**
    read: an unmapped entity throws. A reference entity is read from the
    server when online and the server returns something, otherwise from the
    local cache; a transactional entity always from its local table. `server`
    is `None` when the server call failed; `local` is the table's rows in the
    store's order.
  */
  function Read(name: string, filter: Option<map<Key, Value>>, online: bool,
                server: Option<seq<Record>>, local: seq<Record>): (r: Result<seq<Record>, string>)
    ensures r.Err? <==> name !in KnownEntities
    ensures r.Err? ==> r.error == UnmappedError(name)
    ensures r.Ok? && !EntityMapping(name).value.isReference ==> r.value == ApplyFilter(local, filter)
    ensures r.Ok? && !online ==> r.value == ApplyFilter(local, filter)
    ensures r.Ok? && (server.None? || server.value == []) ==> r.value == ApplyFilter(local, filter)
    ensures r.Ok? && EntityMapping(name).value.isReference && online && server.Some? && server.value != [] ==>
              r.value == ApplyFilter(server.value, filter)
  {
    match EntityMapping(name)
    case None => Err(UnmappedError(name))
    case Some(m) =>
      if m.isReference && online && server.Some? && |server.value| > 0 then Ok(ApplyFilter(server.value, filter))
      else Ok(ApplyFilter(local, filter))
  }

  /** A queued operation's kind; `OtherOp` is any other text, which the sync refuses. */
  datatype Operation = CreateOp | UpdateOp | DeleteOp | OtherOp(text: string)
  {
    /** The operation as the queue stores it. */
    function name(): string {
      match this
      case CreateOp => "create"
      case UpdateOp => "update"
      case DeleteOp => "delete"
      case OtherOp(n) => n
    }
  }

  /** A queued operation's status: 'pending' until it is sent, 'failed' after a failed attempt. */
  datatype QueueStatus = Pending | Failed

  /** An entry of `syncQueue`; its id is the key it is stored under. */
  datatype SyncItem = SyncItem(
    operation: Operation,
    entityName: string,
    localId: Value,
    remoteId: Value,
    payload: Record,
    timestamp: int,
    status: QueueStatus,
    attempts: int,
    error: Value)

  /** An entry of `idMappings`, stored under its local id. */
  datatype IdMapping = IdMapping(remoteId: Value, entityName: string, timestamp: int)

  /** The local database: the entity tables by name, the sync queue and the id mappings. */
  datatype Db = Db(tables: map<TableId, map<Value, Record>>, queue: map<string, SyncItem>, idMappings: map<Value, IdMapping>)

  /** A table's rows; a table never written to is empty. */
  function Table(db: Db, t: TableId): map<Value, Record> {
    if t in db.tables then db.tables[t] else map[]
  }

  /** `table.put(record)`: the record goes under its `id`. */
  function Put(rows: map<Value, Record>, rec: Record): map<Value, Record> {
    rows[Lookup(rec, Id) := rec]
  }

  /** The bookkeeping fields `create` adds to a record. */
  const CreateFields: set<Key> := {LocalId, SyncStatus, SyncError, CreatedAt}

  /** What `create` and `update` have stored: the record and the database after both writes. */
  datatype Written = Written(db: Db, record: Record)

  /** The enqueued operation's shape, shared by the three writes. */
  ghost predicate Enqueued(before: Db, after: Db, queueId: string, operation: Operation, entityName: string) {
    && (forall k :: k in after.queue <==> k in before.queue || k == queueId)
    && (forall k :: k in before.queue ==> after.queue[k] == before.queue[k])
    && after.queue[queueId].operation == operation
    && after.queue[queueId].entityName == entityName
    && after.queue[queueId].status == Pending
    && after.queue[queueId].attempts == 0
    && after.idMappings == before.idMappings
  }

  /** Only table `t` may differ. */
  predicate OtherTablesKept(before: Db, after: Db, t: TableId) {
    forall u :: u != t ==> Table(after, u) == Table(before, u)
  }

  /** `{ id: localId, ...data, _localId, _syncStatus: 'pending', _syncError: null, created_at }` */
  function CreatedRecord(data: Record, localId: string, now: int): (rec: Record)
    ensures forall k :: k in data && k !in CreateFields ==> k in rec && rec[k] == data[k]
    ensures Id !in data ==> Lookup(rec, Id) == Str(localId)
    ensures Lookup(rec, LocalId) == Str(localId) && Lookup(rec, SyncStatus) == Str("pending")
  {
    var withId := if Id in data then data else data[Id := Str(localId)];
    withId[LocalId := Str(localId)][SyncStatus := Str("pending")][SyncError := Null][CreatedAt := Stamp(now)]
  }

  /** `syncQueue.add(...)` of a fresh operation under `queueId`. */
  function Enqueue(db: Db, queueId: string, item: SyncItem): (d: Db)
    requires queueId !in db.queue && item.status == Pending && item.attempts == 0
    ensures Enqueued(db, d, queueId, item.operation, item.entityName)
    ensures d.queue[queueId] == item && d.tables == db.tables
  {
    db.(queue := db.queue[queueId := item])
  }

  /** Replace the rows of table `t`. */
  function WithTable(db: Db, t: TableId, rows: map<Value, Record>): (d: Db)
    ensures Table(d, t) == rows && OtherTablesKept(db, d, t)
    ensures d.queue == db.queue && d.idMappings == db.idMappings
  {
    db.(tables := db.tables[t := rows])
  }

  /**
    create, once the entity's table `t` is known: the record is
    `{id: localId, ...data}` plus its bookkeeping fields, it is put in `t`,
    and one 'create' operation is enqueued under `queueId`.
  */
  function CreateIn(db: Db, t: TableId, name: string, data: Record, localId: string, queueId: string, now: int): (w: Written)
    requires queueId !in db.queue
    ensures w.record == CreatedRecord(data, localId, now)
    ensures Table(w.db, t) == Table(db, t)[Lookup(w.record, Id) := w.record]
    ensures OtherTablesKept(db, w.db, t)
    ensures Enqueued(db, w.db, queueId, CreateOp, name)
    ensures w.db.queue[queueId].localId == Str(localId)
    ensures w.db.queue[queueId].payload == Json(w.record)
  {
    var rec := CreatedRecord(data, localId, now);
    var item := SyncItem(CreateOp, name, Str(localId), Undefined, Json(rec), now, Pending, 0, Undefined);
    Written(Enqueue(WithTable(db, t, Put(Table(db, t), rec)), queueId, item), rec)
  }

  /** create: an unmapped entity throws before any write. */
  function Create(db: Db, name: string, data: Record, localId: string, queueId: string, now: int): (r: Result<Written, string>)
    requires queueId !in db.queue
    ensures r.Err? <==> name !in KnownEntities
    ensures r.Err? ==> r.error == UnmappedError(name)
    ensures r.Ok? ==> r.value == CreateIn(db, EntityMapping(name).value.table, name, data, localId, queueId, now)
  {
    match EntityMapping(name)
    case None => Err(UnmappedError(name))
    case Some(m) => Ok(CreateIn(db, m.table, name, data, localId, queueId, now))
  }

  /** `id.startsWith('temp_') || id.length === 36`: an id the device made up. */
  predicate IsLocalId(id: string) {
    StartsWith(id, "temp_") || |id| == 36
  }

  /** The bookkeeping fields `update` overrides. */
  const UpdateFields: set<Key> := {SyncStatus, SyncError, UpdatedAt}

  function NotFoundError(id: string, table: string): string {
    "Registro " + id + " não encontrado em " + table
  }

  /** `{ ...current, ...data, _syncStatus: 'pending', _syncError: null, updated_at }` */
  function UpdatedRecord(current: Record, data: Record, now: int): (rec: Record)
    ensures forall k :: k in data && k !in UpdateFields ==> k in rec && rec[k] == data[k]
    ensures forall k :: k in current && k !in data && k !in UpdateFields ==> k in rec && rec[k] == current[k]
    ensures forall k :: k in rec ==> k in current || k in data || k in UpdateFields
    ensures Lookup(rec, SyncStatus) == Str("pending")
  {
    (current + data)[SyncStatus := Str("pending")][SyncError := Null][UpdatedAt := Stamp(now)]
  }

  /** The `localId` and `remoteId` an update or delete operation records for `id`. */
  function QueuedIds(id: string, storedLocalId: Value): (ids: (Value, Value))
    ensures ids.1 == Null <==> IsLocalId(id)
    ensures !IsLocalId(id) ==> ids.1 == Str(id)
    ensures IsLocalId(id) ==> ids.0 == Str(id)
  {
    if IsLocalId(id) then (Str(id), Null) else (Or(storedLocalId, Str(id)), Str(id))
  }

  /**
    update, once the entity's table `t` is known: a missing record throws
    before any write. Otherwise the stored record becomes the current one
    overlaid with `data` (data wins) and marked pending, and one 'update'
    operation is enqueued. The operation names no remote id exactly when the
    id looks local.
  */
  function UpdateIn(db: Db, t: TableId, name: string, id: string, data: Record, queueId: string, now: int): (r: Result<Written, string>)
    requires queueId !in db.queue
    ensures r.Err? <==> Str(id) !in Table(db, t)
    ensures r.Err? ==> r.error == NotFoundError(id, t.name())
    ensures r.Ok? ==>
      var w := r.value;
      && w.record == UpdatedRecord(Table(db, t)[Str(id)], data, now)
      && Table(w.db, t) == Table(db, t)[Lookup(w.record, Id) := w.record]
      && OtherTablesKept(db, w.db, t)
      && Enqueued(db, w.db, queueId, UpdateOp, name)
      && (w.db.queue[queueId].remoteId == Null <==> IsLocalId(id))
      && (!IsLocalId(id) ==> w.db.queue[queueId].remoteId == Str(id))
      && w.db.queue[queueId].payload == Json(w.record)
  {
    var rows := Table(db, t);
    if Str(id) !in rows then Err(NotFoundError(id, t.name()))
    else
      var current := rows[Str(id)];
      var rec := UpdatedRecord(current, data, now);
      var ids := QueuedIds(id, Lookup(current, LocalId));
      var item := SyncItem(UpdateOp, name, ids.0, ids.1, Json(rec), now, Pending, 0, Undefined);
      Ok(Written(Enqueue(WithTable(db, t, Put(rows, rec)), queueId, item), rec))
  }

  /** update: an unmapped entity throws before any write. */
  function Update(db: Db, name: string, id: string, data: Record, queueId: string, now: int): (r: Result<Written, string>)
    requires queueId !in db.queue
    ensures name !in KnownEntities ==> r == Err(UnmappedError(name))
    ensures name in KnownEntities ==> r == UpdateIn(db, EntityMapping(name).value.table, name, id, data, queueId, now)
  {
    match EntityMapping(name)
    case None => Err(UnmappedError(name))
    case Some(m) => UpdateIn(db, m.table, name, id, data, queueId, now)
  }

  /**
    delete, once the entity's table `t` is known: the record is removed (a
    missing one is no error) and one 'delete' operation is enqueued.
  */
  function DeleteIn(db: Db, t: TableId, name: string, id: string, queueId: string, now: int): (d: Db)
    requires queueId !in db.queue
    ensures Table(d, t) == Table(db, t) - {Str(id)}
    ensures OtherTablesKept(db, d, t)
    ensures Enqueued(db, d, queueId, DeleteOp, name)
    ensures d.queue[queueId].remoteId == Null <==> IsLocalId(id)
    ensures d.queue[queueId].payload == map[Id := Str(id)]
  {
    var rows := Table(db, t);
    var storedLocalId := if Str(id) in rows then Lookup(rows[Str(id)], LocalId) else Undefined;
    var ids := QueuedIds(id, storedLocalId);
    var item := SyncItem(DeleteOp, name, ids.0, ids.1, map[Id := Str(id)], now, Pending, 0, Undefined);
    Enqueue(WithTable(db, t, rows - {Str(id)}), queueId, item)
  }

  /** delete: an unmapped entity throws before any write. */
  function Delete(db: Db, name: string, id: string, queueId: string, now: int): (r: Result<Db, string>)
    requires queueId !in db.queue
    ensures r.Err? <==> name !in KnownEntities
    ensures r.Err? ==> r.error == UnmappedError(name)
    ensures r.Ok? ==> r.value == DeleteIn(db, EntityMapping(name).value.table, name, id, queueId, now)
  {
    match EntityMapping(name)
    case None => Err(UnmappedError(name))
    case Some(m) => Ok(DeleteIn(db, m.table, name, id, queueId, now))
  }

  /** The next C, NC, D and R numbers. */
  datatype Next = Next(c: int, nc: int, d: int, r: int)

  /** Some answer of the unit makes `pergunta?.trim()` throw. */
  predicate CountThrows(answers: map<Value, Record>, unidadeId: Value) {
    exists k :: k in answers && OfUnit(answers[k], unidadeId) && TrimThrows(answers[k])
  }

  /** The numbers when counting does not throw. */
  function Counted(db: Db, unidadeId: Value): (n: Next)
    ensures n.c >= 1 && n.nc >= 1 && n.d >= 1 && n.r >= 1
  {
    Next(AnswersWithConstatacao(Table(db, RespostasChecklist), unidadeId) + CountOfUnit(Table(db, ConstatacoesManuais), unidadeId) + 1,
         CountOfUnit(Table(db, NaoConformidades), unidadeId) + 1,
         CountOfUnit(Table(db, Determinacoes), unidadeId) + 1,
         CountOfUnit(Table(db, Recomendacoes), unidadeId) + 1)
  }

  /**
    calcularProximaNumeracao: count-based. C is one past the unit's answers
    with a constatação plus its manual findings; NC, D and R are one past the
    unit's records of each kind. When counting throws, every number is 1.
  */
  function CalcularProximaNumeracao(db: Db, unidadeId: Value): (n: Next)
    ensures n.c >= 1 && n.nc >= 1 && n.d >= 1 && n.r >= 1
    ensures CountThrows(Table(db, RespostasChecklist), unidadeId) ==> n == Next(1, 1, 1, 1)
  {
    if CountThrows(Table(db, RespostasChecklist), unidadeId) then Next(1, 1, 1, 1) else Counted(db, unidadeId)
  }

  /** The four numbered series. */
  datatype Series = C | NC | D | R

  /** The table whose rows a series counts: C counts manual findings on top of the answers. */
  function SeriesTable(s: Series): TableId {
    match s
    case C => ConstatacoesManuais
    case NC => NaoConformidades
    case D => Determinacoes
    case R => Recomendacoes
  }

  /** One more in series `s`. */
  function Bump(n: Next, s: Series): Next {
    match s
    case C => n.(c := n.c + 1)
    case NC => n.(nc := n.nc + 1)
    case D => n.(d := n.d + 1)
    case R => n.(r := n.r + 1)
  }

  /** A created record keeps the unit of its data, and its id is the local id when the data has none. */
  lemma CreatedRecordUnit(data: Record, localId: string, now: int)
    requires Id !in data
    ensures Lookup(CreatedRecord(data, localId, now), UnidadeFiscalizadaId) == Lookup(data, UnidadeFiscalizadaId)
    ensures Lookup(CreatedRecord(data, localId, now), Id) == Str(localId)
  {
  }

  /** A field of the data that `create` does not set reads back unchanged. */
  lemma CreatedRecordField(data: Record, localId: string, now: int, k: Key)
    requires k in data && k !in CreateFields
    ensures Lookup(CreatedRecord(data, localId, now), k) == data[k]
  {
  }

  /** A created record belongs to the unit its data names. */
  lemma CreatedOfUnit(data: Record, localId: string, now: int, unidadeId: Value)
    requires UnidadeFiscalizadaId in data && data[UnidadeFiscalizadaId] == unidadeId
    ensures OfUnit(CreatedRecord(data, localId, now), unidadeId)
  {
    CreatedRecordField(data, localId, now, UnidadeFiscalizadaId);
  }

  /** The counts of the tables other than the series' own are untouched. */
  lemma CountsKept(db: Db, db2: Db, s: Series, unidadeId: Value)
    requires OtherTablesKept(db, db2, SeriesTable(s))
    ensures CountThrows(Table(db2, RespostasChecklist), unidadeId) == CountThrows(Table(db, RespostasChecklist), unidadeId)
    ensures AnswersWithConstatacao(Table(db2, RespostasChecklist), unidadeId) == AnswersWithConstatacao(Table(db, RespostasChecklist), unidadeId)
    ensures s != C ==> CountOfUnit(Table(db2, ConstatacoesManuais), unidadeId) == CountOfUnit(Table(db, ConstatacoesManuais), unidadeId)
    ensures s != NC ==> CountOfUnit(Table(db2, NaoConformidades), unidadeId) == CountOfUnit(Table(db, NaoConformidades), unidadeId)
    ensures s != D ==> CountOfUnit(Table(db2, Determinacoes), unidadeId) == CountOfUnit(Table(db, Determinacoes), unidadeId)
    ensures s != R ==> CountOfUnit(Table(db2, Recomendacoes), unidadeId) == CountOfUnit(Table(db, Recomendacoes), unidadeId)
  {
    assert Table(db2, RespostasChecklist) == Table(db, RespostasChecklist);
    if s != C { assert Table(db2, ConstatacoesManuais) == Table(db, ConstatacoesManuais); }
    if s != NC { assert Table(db2, NaoConformidades) == Table(db, NaoConformidades); }
    if s != D { assert Table(db2, Determinacoes) == Table(db, Determinacoes); }
    if s != R { assert Table(db2, Recomendacoes) == Table(db, Recomendacoes); }
  }

  /**
    Adding a record of the unit under a fresh key to the table of a series,
    and to no other table, moves that series' count up by one.
  */
  lemma CountedAfterAdd(db: Db, db2: Db, s: Series, key: Value, rec: Record, unidadeId: Value)
    requires key !in Table(db, SeriesTable(s)) && OfUnit(rec, unidadeId)
    requires Table(db2, SeriesTable(s)) == Table(db, SeriesTable(s))[key := rec]
    requires OtherTablesKept(db, db2, SeriesTable(s))
    ensures CountThrows(Table(db2, RespostasChecklist), unidadeId) == CountThrows(Table(db, RespostasChecklist), unidadeId)
    ensures Counted(db2, unidadeId) == Bump(Counted(db, unidadeId), s)
  {
    CountAfterPut(Table(db, SeriesTable(s)), key, rec, unidadeId);
    CountsKept(db, db2, s, unidadeId);
    CountedBumps(db, db2, s, unidadeId);
  }

  /** The step from the per-table counts to the next numbers. */
  lemma CountedBumps(db: Db, db2: Db, s: Series, unidadeId: Value)
    requires CountOfUnit(Table(db2, SeriesTable(s)), unidadeId) == CountOfUnit(Table(db, SeriesTable(s)), unidadeId) + 1
    requires AnswersWithConstatacao(Table(db2, RespostasChecklist), unidadeId) == AnswersWithConstatacao(Table(db, RespostasChecklist), unidadeId)
    requires s != C ==> CountOfUnit(Table(db2, ConstatacoesManuais), unidadeId) == CountOfUnit(Table(db, ConstatacoesManuais), unidadeId)
    requires s != NC ==> CountOfUnit(Table(db2, NaoConformidades), unidadeId) == CountOfUnit(Table(db, NaoConformidades), unidadeId)
    requires s != D ==> CountOfUnit(Table(db2, Determinacoes), unidadeId) == CountOfUnit(Table(db, Determinacoes), unidadeId)
    requires s != R ==> CountOfUnit(Table(db2, Recomendacoes), unidadeId) == CountOfUnit(Table(db, Recomendacoes), unidadeId)
    ensures Counted(db2, unidadeId) == Bump(Counted(db, unidadeId), s)
  {
  }

  /**
    Creating a record of the unit under a fresh id in the table of a series
    moves that series' next number up by one and leaves the others alone,
    unless the answers make the count throw.
  */
  lemma NextAfterCreate(db: Db, s: Series, name: string, data: Record, localId: string, queueId: string, now: int, unidadeId: Value)
    requires queueId !in db.queue
    requires Id !in data && Lookup(data, UnidadeFiscalizadaId) == unidadeId
    requires Str(localId) !in Table(db, SeriesTable(s))
    ensures
      var before := CalcularProximaNumeracao(db, unidadeId);
      var after := CalcularProximaNumeracao(CreateIn(db, SeriesTable(s), name, data, localId, queueId, now).db, unidadeId);
      (before == Next(1, 1, 1, 1) && after == Next(1, 1, 1, 1)) || after == Bump(before, s)
  {
    var t := SeriesTable(s);
    var w := CreateIn(db, t, name, data, localId, queueId, now);
    CreatedRecordUnit(data, localId, now);
    CountedAfterAdd(db, w.db, s, Str(localId), w.record, unidadeId);
  }
}
