/**
  The checklist import (functions/importarChecklist.ts). An administrator
  uploads a semicolon-separated file whose first non-blank line is a header
  and whose other non-blank lines each describe one checklist item. Every
  data row is parsed and validated on its own: a bad row records an error
  naming its line and the import goes on. The unit type a row names is looked
  up by name, or created, once per key of the type cache, and the item is
  created under it with `ordem` and `prazo_dias` defaulted.

  The server is not modelled: the unit types it holds before the import are a
  parameter, and so is the exception, if any, it raises while a row is
  processed. The cache key is a parameter too, so that the key the code
  builds and a collision-free key can both be stated.
*/
module ImportChecklist {
  import opened Wrappers
  import opened Text

  /** The eleven columns of a data row, trimmed, in file order. */
  datatype Row = Row(
    servico: string,
    codigo: string,
    nome: string,
    ordem: string,
    pergunta: string,
    textoSim: string,
    textoNao: string,
    artigo: string,
    textoNc: string,
    textoDet: string,
    prazo: string)

  /** The number of columns a data row needs. */
  const ColumnCount: nat := 11

  /** `linha.split(';').map(c => c.trim())` */
  function Columns(line: string): (cols: seq<string>)
    ensures |cols| == |Split(line, ';')|
    ensures forall k :: 0 <= k < |cols| ==> cols[k] == Trim(Split(line, ';')[k])
  {
    var pieces := Split(line, ';');
    seq(|pieces|, k requires 0 <= k < |pieces| => Trim(pieces[k]))
  }

  /** What a data line parses to: too few columns, a blank required field, or a row. */
  datatype Parsed = TooFewColumns(count: nat) | MissingField | Fields(row: Row)

  /** A row as the import accepts it: every column trimmed and free of ';', the question and the type name present. */
  predicate WellFormed(row: Row) {
    && (forall k :: 0 <= k < ColumnCount ==> Clean(Cells(row)[k]))
    && row.pergunta != [] && row.nome != []
  }

  /** A column as the parser leaves it: trimmed, and free of the separator. */
  predicate Clean(col: string) {
    Trim(col) == col && ';' !in col
  }

  /** The columns of a row, in file order. */
  function Cells(row: Row): (cols: seq<string>)
    ensures |cols| == ColumnCount
  {
    [row.servico, row.codigo, row.nome, row.ordem, row.pergunta, row.textoSim, row.textoNao,
     row.artigo, row.textoNc, row.textoDet, row.prazo]
  }

  /** The line a row is written as. */
  function Line(row: Row): string {
    Join(Cells(row), ';')
  }

  /**
    The column count check, then `!pergunta || !tipo_unidade_nome`, then the
    eleven columns by position; columns past the eleventh are ignored.
  */
  function ParseRow(line: string): (p: Parsed)
    ensures p.TooFewColumns? <==> |Split(line, ';')| < ColumnCount
    ensures p.TooFewColumns? ==> p.count == |Split(line, ';')|
    ensures p.MissingField? ==> Columns(line)[4] == [] || Columns(line)[2] == []
  {
    var cols := Columns(line);
    if |cols| < ColumnCount then TooFewColumns(|cols|)
    else if cols[4] == [] || cols[2] == [] then MissingField
    else Fields(RowOf(cols))
  }

  /** The first eleven columns by position. */
  function RowOf(cols: seq<string>): (row: Row)
    requires |cols| >= ColumnCount
    ensures Cells(row) == cols[..ColumnCount]
  {
    Row(cols[0], cols[1], cols[2], cols[3], cols[4], cols[5], cols[6], cols[7], cols[8], cols[9], cols[10])
  }

  /** Every column is trimmed and free of ';'. */
  lemma ColumnsClean(line: string)
    ensures forall k :: 0 <= k < |Columns(line)| ==> Clean(Columns(line)[k])
  {
    var pieces := Split(line, ';');
    forall k | 0 <= k < |pieces| ensures Clean(Columns(line)[k]) {
      TrimIdempotent(pieces[k]);
      TrimmedPart(pieces[k], ';');
    }
  }

  /** A row the parser accepts is well formed: trimmed, free of ';', with a question and a type name. */
  lemma ParsedWellFormed(line: string)
    ensures ParseRow(line).Fields? ==> WellFormed(ParseRow(line).row)
  {
    if ParseRow(line).Fields? {
      ColumnsClean(line);
      RowOfClean(Columns(line));
    }
  }

  lemma RowOfClean(cols: seq<string>)
    requires |cols| >= ColumnCount && cols[2] != [] && cols[4] != []
    requires forall k :: 0 <= k < |cols| ==> Clean(cols[k])
    ensures WellFormed(RowOf(cols))
  {
    var row := RowOf(cols);
    assert forall k :: 0 <= k < ColumnCount ==> Cells(row)[k] == cols[k];
  }

  /** Trimming keeps no character the text did not have. */
  lemma TrimmedPart(s: string, c: char)
    requires c !in s
    ensures c !in Trim(s)
  {
    var t := TrimStart(s);
    assert c !in t;
  }

  /** Parsing a written row gives the row back. */
  lemma ParseRowOfLine(row: Row)
    requires WellFormed(row)
    ensures ParseRow(Line(row)) == Fields(row)
  {
    var cells := Cells(row);
    SplitJoin(cells, ';');
    var cols := Columns(Line(row));
    assert |cols| == ColumnCount;
    forall k | 0 <= k < ColumnCount ensures cols[k] == cells[k] {
      assert Clean(cells[k]);
    }
    assert RowOf(cols) == row;
  }

  /** A unit type the server already holds. */
  datatype Tipo = Tipo(id: string, nome: string)

  /** A unit type the import creates. */
  datatype NewTipo = NewTipo(nome: string, descricao: string, servicos: seq<string>, ativo: bool)

  /** A unit type's id: one that existed (its position in the server's list) or one this import created. */
  datatype TipoRef = ExistingTipo(index: nat) | CreatedTipo(index: nat)

  /** The unit type `t` refers to exists and has the name `nome`. */
  predicate Names(existing: seq<Tipo>, created: seq<NewTipo>, t: TipoRef, nome: string) {
    && (t.ExistingTipo? ==> t.index < |existing| && existing[t.index].nome == nome)
    && (t.CreatedTipo? ==> t.index < |created| && created[t.index].nome == nome)
  }

  /** The first position at or after `j` whose element `name` maps to `nome`. */
  function FirstNamed<T>(s: seq<T>, name: T -> string, nome: string, j: nat): (r: Option<nat>)
    requires j <= |s|
    ensures r.Some? ==> j <= r.value < |s| && name(s[r.value]) == nome
    ensures r.None? <==> forall m :: j <= m < |s| ==> name(s[m]) != nome
    decreases |s| - j
  {
    if j == |s| then None
    else if name(s[j]) == nome then Some(j)
    else FirstNamed(s, name, nome, j + 1)
  }

  /**
    `TipoUnidade.filter({ nome })[0]`: a type that existed before the import,
    else one the import created. The server sees the types created so far.
  */
  function FindTipo(existing: seq<Tipo>, created: seq<NewTipo>, nome: string): (r: Option<TipoRef>)
    ensures r.Some? ==> Names(existing, created, r.value, nome)
    ensures r.None? <==>
      (forall j :: 0 <= j < |existing| ==> existing[j].nome != nome) && (forall j :: 0 <= j < |created| ==> created[j].nome != nome)
  {
    match FirstNamed(existing, (t: Tipo) => t.nome, nome, 0)
    case Some(j) => Some(ExistingTipo(j))
    case None =>
      match FirstNamed(created, (t: NewTipo) => t.nome, nome, 0)
      case Some(j) => Some(CreatedTipo(j))
      case None => None
  }

  /** A created checklist item. */
  datatype Item = Item(
    tipo: TipoRef,
    ordem: int,
    pergunta: string,
    textoSim: string,
    textoNao: string,
    geraNc: bool,
    artigo: string,
    textoNc: string,
    textoDet: string,
    prazoDias: int,
    ativo: bool)

  /** `parseInt(x) || d`: NaN and 0 are both falsy. */
  function OrDefault(v: Option<int>, d: int): int {
    if v.Some? && v.value != 0 then v.value else d
  }

  /** The item a row creates: `gera_nc` and `ativo` always true, `ordem` defaulting to 0 and `prazo_dias` to 30. */
  function ItemOf(row: Row, tipo: TipoRef): Item {
    Item(tipo, OrDefault(ParseInt(row.ordem), 0), row.pergunta, row.textoSim, row.textoNao, true,
         row.artigo, row.textoNc, row.textoDet, OrDefault(ParseInt(row.prazo), 30), true)
  }

  /**
    The numeric columns: a number written in the column is read back, except
    that a deadline of zero, like a missing or unreadable one, becomes 30
    days; so no item has a zero deadline.
  */
  lemma ItemDefaults(row: Row, tipo: TipoRef, n: int)
    ensures ItemOf(row, tipo).geraNc && ItemOf(row, tipo).ativo && ItemOf(row, tipo).prazoDias != 0
    ensures row.ordem == IntToString(n) ==> ItemOf(row, tipo).ordem == n
    ensures row.prazo == IntToString(n) ==> ItemOf(row, tipo).prazoDias == if n == 0 then 30 else n
    ensures ParseInt(row.ordem).None? ==> ItemOf(row, tipo).ordem == 0
    ensures ParseInt(row.prazo).None? ==> ItemOf(row, tipo).prazoDias == 30
  {
    ParseIntOfIntToString(n);
  }

  /** An exception the server raises while a row is processed: in the type lookup or creation, or in the item creation. */
  datatype Fault = TipoFault(message: string) | ItemFault(message: string)

  /**
    The import's running state: the type cache, the keys resolved through the
    server in order, the types and items created, and the errors.
  */
  datatype State<K(==)> = State(
    cache: map<K, TipoRef>,
    resolved: seq<K>,
    created: seq<NewTipo>,
    items: seq<Item>,
    erros: seq<string>)

  function Empty<K(==)>(): State<K> {
    State(map[], [], [], [], [])
  }

  /** `Linha ${i + 2}: …` for the data row at position `i`. */
  function LineError(i: nat, message: string): string {
    "Linha " + IntToString(i + 2) + ": " + message
  }

  /** The type created for a row whose type name nothing has. */
  function NewTipoOf(row: Row): NewTipo {
    NewTipo(row.nome, "Tipo: " + row.codigo, if row.servico == [] then [] else [row.servico], true)
  }

  /** The cache after resolving the row's key: a cached key is used as it is; otherwise the type is found or created and cached. */
  function Resolved<K(==)>(st: State<K>, existing: seq<Tipo>, k: K, row: Row): (r: State<K>)
    ensures k in r.cache
    ensures r.items == st.items && r.erros == st.erros
  {
    if k in st.cache then st
    else
      match FindTipo(existing, st.created, row.nome)
      case Some(t) => st.(cache := st.cache[k := t], resolved := st.resolved + [k])
      case None =>
        st.(cache := st.cache[k := CreatedTipo(|st.created|)], resolved := st.resolved + [k],
            created := st.created + [NewTipoOf(row)])
  }

  /** A row that parsed: its type resolved under its key, then its item created, unless the server raises on either. */
  function ImportRow<K(==)>(key: (string, string) -> K, st: State<K>, existing: seq<Tipo>, row: Row, i: nat,
                            fault: Option<Fault>): (r: State<K>)
    ensures |r.items| + |r.erros| == |st.items| + |st.erros| + 1
  {
    var k := key(row.codigo, row.nome);
    if k !in st.cache && fault.Some? && fault.value.TipoFault? then
      st.(erros := st.erros + [LineError(i, fault.value.message)])
    else
      var after := Resolved(st, existing, k, row);
      if fault.Some? && fault.value.ItemFault? then after.(erros := after.erros + [LineError(i, fault.value.message)])
      else after.(items := after.items + [ItemOf(row, after.cache[k])])
  }

  /** One data line, at position `i` among the data lines. */
  function ImportLine<K(==)>(key: (string, string) -> K, st: State<K>, existing: seq<Tipo>, line: string, i: nat,
                             fault: Option<Fault>): (r: State<K>)
    ensures |r.items| + |r.erros| == |st.items| + |st.erros| + 1
  {
    match ParseRow(line)
    case TooFewColumns(n) =>
      st.(erros := st.erros + [LineError(i, "Número insuficiente de colunas (" + IntToString(n) + "/11)")])
    case MissingField => st.(erros := st.erros + [LineError(i, "Pergunta ou tipo de unidade vazio")])
    case Fields(row) => ImportRow(key, st, existing, row, i, fault)
  }

  /** The data lines from position `i` on; a bad row never stops the loop, so every row yields one item or one error. */
  function ImportLines<K(==)>(key: (string, string) -> K, st: State<K>, existing: seq<Tipo>, lines: seq<string>,
                              faults: nat -> Option<Fault>, i: nat): (r: State<K>)
    requires i <= |lines|
    ensures |r.items| + |r.erros| == |st.items| + |st.erros| + (|lines| - i)
    decreases |lines| - i
  {
    if i == |lines| then st
    else ImportLines(key, ImportLine(key, st, existing, lines[i], i, faults(i)), existing, lines, faults, i + 1)
  }

  /** The pieces that are not blank, in order: `filter(line => line.trim())`. */
  function NonBlank(pieces: seq<string>): (r: seq<string>)
    ensures forall l :: l in r <==> l in pieces && Trim(l) != []
    ensures |r| <= |pieces|
  {
    if pieces == [] then []
    else
      var rest := NonBlank(pieces[1..]);
      assert forall l :: l in pieces <==> l == pieces[0] || l in pieces[1..];
      if Trim(pieces[0]) != [] then [pieces[0]] + rest else rest
  }

  /** The non-blank lines of the file. */
  function Lines(text: string): seq<string> {
    NonBlank(Split(text, '\n'))
  }

  /** The handler's response body. */
  datatype Body =
    | Failure(error: string)
    | Summary(sucesso: bool, itensImportados: nat, tiposCriados: nat, erros: Option<seq<string>>)

  /** The status, the body, and what the import created. */
  datatype Outcome = Outcome(status: nat, body: Body, created: seq<NewTipo>, items: seq<Item>)

  function ErrorCount(b: Body): nat {
    if b.Summary? && b.erros.Some? then |b.erros.value| else 0
  }

  /**
    The handler: 403 unless the caller is an administrator, 400 without a
    file or without a data line; otherwise every data line is imported and
    the counts reported, `erros` being null when there were none.
  */
  function Import<K(==)>(key: (string, string) -> K, role: Option<string>, file: Option<string>,
                         existing: seq<Tipo>, faults: nat -> Option<Fault>): (o: Outcome)
    ensures o.status == 403 <==> role != Some("admin")
    ensures o.status == 400 <==> role == Some("admin") && (file.None? || |Lines(file.value)| < 2)
    ensures o.status != 200 ==> o.body.Failure? && o.created == [] && o.items == []
    ensures o.status == 200 ==>
      && file.Some?
      && o.body.Summary? && o.body.sucesso
      && o.body.itensImportados == |o.items|
      && (o.body.erros.Some? ==> o.body.erros.value != [])
      && o.body.itensImportados + ErrorCount(o.body) == |Lines(file.value)| - 1
  {
    if role != Some("admin") then
      Outcome(403, Failure("Acesso negado. Apenas administradores podem importar checklists."), [], [])
    else if file.None? then Outcome(400, Failure("Arquivo não fornecido"), [], [])
    else
      var lines := Lines(file.value);
      if |lines| < 2 then Outcome(400, Failure("Arquivo vazio ou sem dados"), [], [])
      else
        var r := ImportLines(key, Empty(), existing, lines[1..], faults, 0);
        Outcome(200, Summary(true, |r.items|, |r.cache|, if r.erros == [] then None else Some(r.erros)),
                r.created, r.items)
  }

  /** The cache key the code builds: `${tipo_unidade_codigo}_${tipo_unidade_nome}`. */
  function JoinedKey(codigo: string, nome: string): string {
    codigo + "_" + nome
  }

  /** A cache key that keeps the code and the name apart. */
  function PairKey(codigo: string, nome: string): (string, string) {
    (codigo, nome)
  }

  /** The import as written, keyed by the joined text. */
  function ImportChecklistAsWritten(role: Option<string>, file: Option<string>, existing: seq<Tipo>,
                                    faults: nat -> Option<Fault>): Outcome {
    Import(JoinedKey, role, file, existing, faults)
  }

  /** The import with the cache keyed by the (code, name) pair. */
  function ImportChecklist(role: Option<string>, file: Option<string>, existing: seq<Tipo>,
                           faults: nat -> Option<Fault>): Outcome {
    Import(PairKey, role, file, existing, faults)
  }

  /** Each cached key was resolved through the server exactly once, so `tipos_criados` counts the server resolutions. */
  ghost predicate ResolvedOnce<K(!new)>(st: State<K>) {
    && (forall a, b :: 0 <= a < b < |st.resolved| ==> st.resolved[a] != st.resolved[b])
    && (forall k :: k in st.cache <==> k in st.resolved)
    && |st.cache| == |st.resolved|
  }

  /** Types are created only for a name no type had: no created type duplicates an existing one or another created one. */
  ghost predicate CreatedFresh<K(!new)>(existing: seq<Tipo>, st: State<K>) {
    && (forall j, e :: 0 <= j < |st.created| && 0 <= e < |existing| ==> st.created[j].nome != existing[e].nome)
    && (forall a, b :: 0 <= a < b < |st.created| ==> st.created[a].nome != st.created[b].nome)
  }

  /** Under the pair key, each cached type has the name in its key. */
  ghost predicate CacheNames(existing: seq<Tipo>, st: State<(string, string)>) {
    forall k :: k in st.cache ==> Names(existing, st.created, st.cache[k], k.1)
  }

  /** Created types are only ever added, so references into them stay valid. */
  lemma NamesKept(existing: seq<Tipo>, created: seq<NewTipo>, more: seq<NewTipo>, t: TipoRef, nome: string)
    requires Names(existing, created, t, nome)
    ensures Names(existing, created + more, t, nome)
  {
  }

  /** Resolving a key keeps the three invariants. */
  lemma ResolvedKeeps<K(!new)>(st: State<K>, existing: seq<Tipo>, k: K, row: Row)
    requires ResolvedOnce(st) && CreatedFresh(existing, st)
    ensures ResolvedOnce(Resolved(st, existing, k, row)) && CreatedFresh(existing, Resolved(st, existing, k, row))
  {
    var r := Resolved(st, existing, k, row);
    if k !in st.cache {
      assert k !in st.resolved;
      forall a, b | 0 <= a < b < |r.resolved| ensures r.resolved[a] != r.resolved[b] {
        if b == |st.resolved| {
          assert r.resolved[a] == st.resolved[a];
        }
      }
    }
  }

  /** Under the pair key, resolving a row's key leaves its type, named as the row names it, in the cache. */
  lemma ResolvedNames(st: State<(string, string)>, existing: seq<Tipo>, row: Row)
    requires CacheNames(existing, st)
    ensures var r := Resolved(st, existing, PairKey(row.codigo, row.nome), row);
      CacheNames(existing, r) && Names(existing, r.created, r.cache[PairKey(row.codigo, row.nome)], row.nome)
  {
    var k := PairKey(row.codigo, row.nome);
    var r := Resolved(st, existing, k, row);
    forall k2 | k2 in r.cache ensures Names(existing, r.created, r.cache[k2], k2.1) {
      if k2 in st.cache {
        NamesKept(existing, st.created, r.created[|st.created|..], st.cache[k2], k2.1);
        assert st.created + r.created[|st.created|..] == r.created;
      }
    }
  }

  /** Importing a row keeps the invariants, and under the pair key the row's item names the type the row names. */
  lemma ImportRowKeeps<K(!new)>(key: (string, string) -> K, st: State<K>, existing: seq<Tipo>, row: Row, i: nat, fault: Option<Fault>)
    requires ResolvedOnce(st) && CreatedFresh(existing, st)
    ensures ResolvedOnce(ImportRow(key, st, existing, row, i, fault))
    ensures CreatedFresh(existing, ImportRow(key, st, existing, row, i, fault))
  {
    ResolvedKeeps(st, existing, key(row.codigo, row.nome), row);
  }

  /**
    Under the pair key, a row that imports without a fault adds exactly one
    item, its type named as the row names it, and the cache stays faithful.
  */
  lemma ImportRowNamesType(st: State<(string, string)>, existing: seq<Tipo>, row: Row, i: nat)
    requires CacheNames(existing, st)
    ensures var r := ImportRow(PairKey, st, existing, row, i, None);
      && CacheNames(existing, r)
      && |r.items| == |st.items| + 1 && r.items[..|st.items|] == st.items
      && r.items[|st.items|] == ItemOf(row, r.items[|st.items|].tipo)
      && Names(existing, r.created, r.items[|st.items|].tipo, row.nome)
  {
    ResolvedNames(st, existing, row);
    var after := Resolved(st, existing, PairKey(row.codigo, row.nome), row);
    assert (after.items + [ItemOf(row, after.cache[PairKey(row.codigo, row.nome)])])[..|st.items|] == st.items;
  }

  /** Under the pair key a faulty row keeps the cache faithful too. */
  lemma ImportRowKeepsNames(st: State<(string, string)>, existing: seq<Tipo>, row: Row, i: nat, fault: Option<Fault>)
    requires CacheNames(existing, st)
    ensures CacheNames(existing, ImportRow(PairKey, st, existing, row, i, fault))
  {
    ResolvedNames(st, existing, row);
  }

  /** The whole run keeps the invariants, starting from the empty state. */
  lemma {:induction false} ImportLinesKeeps<K(!new)>(key: (string, string) -> K, st: State<K>, existing: seq<Tipo>,
                                                   lines: seq<string>, faults: nat -> Option<Fault>, i: nat)
    requires i <= |lines| && ResolvedOnce(st) && CreatedFresh(existing, st)
    ensures ResolvedOnce(ImportLines(key, st, existing, lines, faults, i))
    ensures CreatedFresh(existing, ImportLines(key, st, existing, lines, faults, i))
    decreases |lines| - i
  {
    if i < |lines| {
      var p := ParseRow(lines[i]);
      if p.Fields? {
        ImportRowKeeps(key, st, existing, p.row, i, faults(i));
      }
      ImportLinesKeeps(key, ImportLine(key, st, existing, lines[i], i, faults(i)), existing, lines, faults, i + 1);
    }
  }

  /** Under the pair key the whole run keeps the cache faithful. */
  lemma {:induction false} ImportLinesNames(st: State<(string, string)>, existing: seq<Tipo>, lines: seq<string>,
                                            faults: nat -> Option<Fault>, i: nat)
    requires i <= |lines| && CacheNames(existing, st)
    ensures CacheNames(existing, ImportLines(PairKey, st, existing, lines, faults, i))
    decreases |lines| - i
  {
    if i < |lines| {
      var p := ParseRow(lines[i]);
      if p.Fields? {
        ImportRowKeepsNames(st, existing, p.row, i, faults(i));
      }
      ImportLinesNames(ImportLine(PairKey, st, existing, lines[i], i, faults(i)), existing, lines, faults, i + 1);
    }
  }

  /**
    With the joined key, two rows whose code and name join to the same text
    but whose names differ share a cache entry: the second row's item is
    filed under the type created for the first row's name.
  */
  lemma JoinedKeyMisfiles(row1: Row, row2: Row)
    requires JoinedKey(row1.codigo, row1.nome) == JoinedKey(row2.codigo, row2.nome) && row1.nome != row2.nome
    ensures var st := ImportRow(JoinedKey, ImportRow(JoinedKey, Empty(), [], row1, 0, None), [], row2, 1, None);
      |st.items| == 2 && !Names([], st.created, st.items[1].tipo, row2.nome)
  {
    var st1 := ImportRow(JoinedKey, Empty(), [], row1, 0, None);
    assert st1.created == [NewTipoOf(row1)];
    assert st1.cache[JoinedKey(row1.codigo, row1.nome)] == CreatedTipo(0);
  }

  /** The rows (code "A_B", name "C") and (code "A", name "B_C") collide: the second item is filed under the type "C". */
  lemma JoinedKeyCollides()
    ensures var row1 := Row("", "A_B", "C", "1", "p", "", "", "", "", "", "30");
      var row2 := Row("", "A", "B_C", "2", "q", "", "", "", "", "", "30");
      var st := ImportRow(JoinedKey, ImportRow(JoinedKey, Empty(), [], row1, 0, None), [], row2, 1, None);
      |st.items| == 2 && !Names([], st.created, st.items[1].tipo, row2.nome)
  {
    var row1 := Row("", "A_B", "C", "1", "p", "", "", "", "", "", "30");
    var row2 := Row("", "A", "B_C", "2", "q", "", "", "", "", "", "30");
    assert JoinedKey(row1.codigo, row1.nome) == JoinedKey(row2.codigo, row2.nome);
    JoinedKeyMisfiles(row1, row2);
  }
}
