/** A table model of the engine that runs import scripts: tables, node labels and edge labels. The checks on labels
    follow crates/aiondb-catalog-store/src/writer.rs and crates/aiondb-planner/src/binder/graph.rs. */
module SqlEngine {
  import opened Wrappers
  import opened Numbers
  import opened Neo4jCsv
  import opened Neo4jImport
  import opened SqlParser

  datatype DbTable = DbTable(defs: seq<ColDef>, rows: seq<seq<Value>>)

  datatype EdgeInfo = EdgeInfo(table: string, source: string, target: string)

  datatype Db = Db(tables: map<string, DbTable>, nodeLabels: map<string, string>, edgeLabels: map<string, EdgeInfo>)

  const EMPTY_DB := Db(map[], map[], map[])

  predicate ValueFits(v: Value, def: ColDef) {
    match v
    case Null => !def.notNull
    case Int(n) => def.dataType == BIGINT && I64_MIN <= n <= I64_MAX
    case Bool(_) => def.dataType == BOOLEAN
    case Str(_) => def.dataType == TEXT
  }

  predicate RowFits(row: seq<Value>, defs: seq<ColDef>) {
    |row| == |defs| && forall i :: 0 <= i < |row| ==> ValueFits(row[i], defs[i])
  }

  predicate HasColumn(defs: seq<ColDef>, name: string) { exists i :: 0 <= i < |defs| && defs[i].name == name }

  predicate DistinctDefs(defs: seq<ColDef>) {
    forall i, j :: 0 <= i < j < |defs| ==> defs[i].name != defs[j].name
  }

  predicate DistinctNames(names: seq<string>) { forall i, j :: 0 <= i < j < |names| ==> names[i] != names[j] }

  /** The value given for a column, NULL for a column not named. */
  function Given(name: string, names: seq<string>, values: seq<Value>): Value
    requires |names| == |values|
  {
    if names == [] then Null else if names[0] == name then values[0] else Given(name, names[1..], values[1..])
  }

  function FullRow(defs: seq<ColDef>, names: seq<string>, values: seq<Value>): (r: seq<Value>)
    requires |names| == |values|
  {
    seq(|defs|, i requires 0 <= i < |defs| => Given(defs[i].name, names, values))
  }

  predicate BacksNode(db: Db, table: string) { exists l :: l in db.nodeLabels && db.nodeLabels[l] == table }

  predicate BacksEdge(db: Db, table: string) { exists l :: l in db.edgeLabels && db.edgeLabels[l].table == table }

  /** A node label needs a table whose first column is "id" and that backs no other label. */
  predicate NodeLabelOk(db: Db, name: string, table: string) {
    && table in db.tables && name !in db.nodeLabels
    && db.tables[table].defs != [] && db.tables[table].defs[0].name == ID
    && !BacksNode(db, table) && !BacksEdge(db, table)
  }

  /** An edge label needs both endpoint labels and both endpoint columns. */
  predicate EdgeLabelOk(db: Db, name: string, table: string, source: string, target: string) {
    && table in db.tables && source in db.nodeLabels && target in db.nodeLabels && name !in db.edgeLabels
    && HasColumn(db.tables[table].defs, SOURCE_ID) && HasColumn(db.tables[table].defs, TARGET_ID)
    && !BacksEdge(db, table) && !BacksNode(db, table)
  }

  predicate InsertOk(db: Db, table: string, names: seq<string>, values: seq<Value>) {
    && table in db.tables && |names| == |values| && DistinctNames(names)
    && (forall i :: 0 <= i < |names| ==> HasColumn(db.tables[table].defs, names[i]))
    && RowFits(FullRow(db.tables[table].defs, names, values), db.tables[table].defs)
  }

  function Exec(stmt: Stmt, db: Db): Result<Db> {
    match stmt
    case Begin => Ok(db)
    case Commit => Ok(db)
    case CreateTable(table, defs) =>
      if table in db.tables || !DistinctDefs(defs) then Err
      else Ok(db.(tables := db.tables[table := DbTable(defs, [])]))
    case Insert(table, names, values) =>
      if !InsertOk(db, table, names, values) then Err
      else
        var t := db.tables[table];
        Ok(db.(tables := db.tables[table := DbTable(t.defs, t.rows + [FullRow(t.defs, names, values)])]))
    case NodeLabel(name, table) =>
      if !NodeLabelOk(db, name, table) then Err else Ok(db.(nodeLabels := db.nodeLabels[name := table]))
    case EdgeLabel(name, table, source, target) =>
      if !EdgeLabelOk(db, name, table, source, target) then Err
      else Ok(db.(edgeLabels := db.edgeLabels[name := EdgeInfo(table, source, target)]))
  }

  /** A script is one transaction: it takes effect as a whole or fails. */
  function ExecAll(stmts: seq<Stmt>, db: Db): Result<Db>
    decreases |stmts|
  {
    if stmts == [] then Ok(db)
    else
      match Exec(stmts[0], db)
      case Err => Err
      case Ok(next) => ExecAll(stmts[1..], next)
  }

  function Execute(sql: string, db: Db): Result<Db> {
    match ReadScript(sql)
    case Err => Err
    case Ok(stmts) => ExecAll(stmts, db)
  }

  lemma {:induction false} ExecAppend(a: seq<Stmt>, b: seq<Stmt>, db: Db)
    ensures ExecAll(a + b, db) == if ExecAll(a, db).Ok? then ExecAll(b, ExecAll(a, db).value) else Err
    decreases |a|
  {
    if a == [] {
      assert a + b == b;
    } else {
      assert (a + b)[1..] == a[1..] + b;
      if Exec(a[0], db).Ok? { ExecAppend(a[1..], b, Exec(a[0], db).value); }
    }
  }

  lemma ExecOne(stmt: Stmt, db: Db)
    ensures ExecAll([stmt], db) == Exec(stmt, db)
  {
    assert [stmt][1..] == [];
    if Exec(stmt, db).Ok? { assert ExecAll([], Exec(stmt, db).value) == Exec(stmt, db); }
  }

  // ----- queries -----

  function Position(defs: seq<ColDef>, name: string): (n: nat)
    requires HasColumn(defs, name)
    ensures n < |defs| && defs[n].name == name
  {
    if defs[0].name == name then 0
    else
      assert HasColumn(defs[1..], name) by {
        var i :| 0 <= i < |defs| && defs[i].name == name;
        assert defs[1..][i - 1].name == name;
      }
      1 + Position(defs[1..], name)
  }

  predicate HasColumns(defs: seq<ColDef>, names: seq<string>) {
    forall i :: 0 <= i < |names| ==> HasColumn(defs, names[i])
  }

  predicate Rectangular(t: DbTable) { forall i :: 0 <= i < |t.rows| ==> |t.rows[i]| == |t.defs| }

  function Project(defs: seq<ColDef>, names: seq<string>, row: seq<Value>): (r: seq<Value>)
    requires HasColumns(defs, names) && |row| == |defs|
  {
    seq(|names|, i requires 0 <= i < |names| => row[Position(defs, names[i])])
  }

  /** The rows of SELECT names FROM t, in the order they were stored. */
  function Select(t: DbTable, names: seq<string>): (r: seq<seq<Value>>)
    requires HasColumns(t.defs, names) && Rectangular(t)
  {
    seq(|t.rows|, i requires 0 <= i < |t.rows| => Project(t.defs, names, t.rows[i]))
  }
}
