/** What running an import script does, for every plan and every database that earlier imports built. */
module Neo4jExecution {
  import opened Wrappers
  import opened Text
  import opened Neo4jCsv
  import opened Neo4jImport
  import opened Neo4jColumns
  import opened Neo4jResume
  import opened SqlText
  import opened SqlLexer
  import opened SqlParser
  import opened SqlRoundTrip
  import opened SqlScript
  import opened SqlEngine

  // ----- plans whose script says what they hold -----

  predicate RowFitsColumns(columns: Columns, row: Row) {
    forall c :: c in columns ==> WellTyped(Cell(row, c), columns[c].dataType)
  }

  predicate TableFits(name: string, columns: Columns, rows: seq<Row>) {
    && Fits(name)
    && (forall c :: c in columns ==> Fits(c))
    && forall i :: 0 <= i < |rows| ==> RowFitsColumns(columns, rows[i])
  }

  predicate PlanFits(plan: Plan) {
    && (forall k :: k in plan.nodes ==> TableFits(k, plan.nodes[k].columns, plan.nodes[k].rows))
    && (forall k :: k in plan.rels ==> TableFits(k, plan.rels[k].columns, plan.rels[k].rows))
    && (forall k :: k in plan.rels ==> Fits(plan.rels[k].source) && Fits(plan.rels[k].target))
  }

  /** No cell of a NOT NULL column is blank. */
  predicate RowFilled(columns: Columns, row: Row) {
    forall c :: c in columns && NotNull(c) ==> Trim(Cell(row, c)) != []
  }

  predicate TableFilled(columns: Columns, rows: seq<Row>) {
    forall i :: 0 <= i < |rows| ==> RowFilled(columns, rows[i])
  }

  /** The columns of a table, as every plan has them: named by their keys, and not none. */
  ghost predicate ColumnsReady(columns: Columns) { ColumnsOk(columns) && columns != map[] }

  lemma OrderedReady(columns: Columns)
    requires ColumnsReady(columns)
    ensures OrderedColumns(columns) != []
    ensures forall i :: 0 <= i < |OrderedColumns(columns)| ==>
              && OrderedColumns(columns)[i].name in columns
              && OrderedColumns(columns)[i] == columns[OrderedColumns(columns)[i].name]
    ensures InOrder(ColumnNames(OrderedColumns(columns)))
    ensures forall c :: c in columns <==> c in ColumnNames(OrderedColumns(columns))
  {
    var ordered := OrderedColumns(columns);
    OrderedColumnsAgree(columns);
    OrderedNamesInOrder(TypesOf(columns));
    assert NamesOf(ordered) == ColumnNames(ordered);
    assert TypesOf(columns).Keys == columns.Keys;
    var c :| c in columns;
    assert c in ColumnNames(ordered);
    forall i | 0 <= i < |ordered| ensures ordered[i].name in columns && ordered[i] == columns[ordered[i].name] {
      assert ordered[i] in ordered;
    }
  }

  lemma InOrderDistinct(names: seq<string>)
    requires InOrder(names)
    ensures DistinctNames(names)
  {
  }

  lemma RowReady(columns: Columns, row: Row)
    requires ColumnsReady(columns) && RowFitsColumns(columns, row)
    ensures RowOk(OrderedColumns(columns), row)
    ensures RowFits(RowValues(OrderedColumns(columns), row), DefsOf(OrderedColumns(columns)))
       <==> RowFilled(columns, row)
  {
    var ordered := OrderedColumns(columns);
    OrderedReady(columns);
    forall i | 0 <= i < |ordered| ensures WellTyped(Cell(row, ordered[i].name), ordered[i].dataType) {
      assert ordered[i].name in columns;
    }
    var values, defs := RowValues(ordered, row), DefsOf(ordered);
    forall i | 0 <= i < |ordered|
      ensures ValueFits(values[i], defs[i]) <==> (NotNull(ordered[i].name) ==> Trim(Cell(row, ordered[i].name)) != [])
    {
      CellValueFits(ordered[i], Cell(row, ordered[i].name));
    }
    if RowFits(values, defs) {
      forall c | c in columns && NotNull(c) ensures Trim(Cell(row, c)) != [] {
        var i :| 0 <= i < |ordered| && ColumnNames(ordered)[i] == c;
        assert ValueFits(values[i], defs[i]);
      }
    }
  }

  lemma CellValueFits(col: SqlColumn, cell: string)
    requires WellTyped(cell, col.dataType)
    ensures ValueFits(CellValue(cell, col.dataType), DefOf(col)) <==> (NotNull(col.name) ==> Trim(cell) != [])
  {
  }

  // ----- one row, one table -----

  lemma {:induction false} GivenAt(names: seq<string>, values: seq<Value>, i: nat)
    requires |names| == |values| && i < |names| && DistinctNames(names)
    ensures Given(names[i], names, values) == values[i]
    decreases |names|
  {
    if i > 0 { GivenAt(names[1..], values[1..], i - 1); }
  }

  lemma FullRowIs(columns: seq<SqlColumn>, values: seq<Value>)
    requires |columns| == |values| && DistinctNames(ColumnNames(columns))
    ensures FullRow(DefsOf(columns), ColumnNames(columns), values) == values
  {
    forall i | 0 <= i < |columns| ensures FullRow(DefsOf(columns), ColumnNames(columns), values)[i] == values[i] {
      GivenAt(ColumnNames(columns), values, i);
    }
  }

  lemma NamesAreColumns(columns: seq<SqlColumn>)
    ensures forall i :: 0 <= i < |columns| ==> HasColumn(DefsOf(columns), ColumnNames(columns)[i])
    ensures DistinctNames(ColumnNames(columns)) ==> DistinctDefs(DefsOf(columns))
  {
    forall i | 0 <= i < |columns| ensures HasColumn(DefsOf(columns), ColumnNames(columns)[i]) {
      assert DefsOf(columns)[i].name == ColumnNames(columns)[i];
    }
    if DistinctNames(ColumnNames(columns)) {
      forall i, j | 0 <= i < j < |columns| ensures DefsOf(columns)[i].name != DefsOf(columns)[j].name {
        assert ColumnNames(columns)[i] != ColumnNames(columns)[j];
      }
    }
  }

  /** What a table holds once its rows are in. */
  function Stored(columns: seq<SqlColumn>, rows: seq<Row>): (r: seq<seq<Value>>)
    requires forall i :: 0 <= i < |rows| ==> RowOk(columns, rows[i])
  {
    seq(|rows|, i requires 0 <= i < |rows| => RowValues(columns, rows[i]))
  }

  ghost predicate Insertable(columns: seq<SqlColumn>, rows: seq<Row>) {
    DistinctNames(ColumnNames(columns)) && forall i :: 0 <= i < |rows| ==> RowOk(columns, rows[i])
  }

  /** The engine takes every row. */
  ghost predicate AllTaken(columns: seq<SqlColumn>, rows: seq<Row>)
    requires Insertable(columns, rows)
  {
    forall i :: 0 <= i < |rows| ==> RowFits(RowValues(columns, rows[i]), DefsOf(columns))
  }

  function WithRows(db: Db, table: string, columns: seq<SqlColumn>, rows: seq<seq<Value>>): Db {
    db.(tables := db.tables[table := DbTable(DefsOf(columns), rows)])
  }

  lemma InsertOne(db: Db, table: string, columns: seq<SqlColumn>, values: seq<Value>, stored: seq<seq<Value>>)
    requires table in db.tables && db.tables[table] == DbTable(DefsOf(columns), stored)
    requires DistinctNames(ColumnNames(columns)) && |values| == |columns|
    ensures Exec(Insert(table, ColumnNames(columns), values), db)
         == if RowFits(values, DefsOf(columns)) then Ok(WithRows(db, table, columns, stored + [values])) else Err
  {
    FullRowIs(columns, values);
    NamesAreColumns(columns);
  }

  /** The statements of InsertLines. */
  function InsertStmts(table: string, columns: seq<SqlColumn>, rows: seq<Row>): (r: seq<Stmt>)
    requires forall i :: 0 <= i < |rows| ==> RowOk(columns, rows[i])
  {
    seq(|rows|, i requires 0 <= i < |rows| => Insert(table, ColumnNames(columns), RowValues(columns, rows[i])))
  }

  lemma TakenCons(columns: seq<SqlColumn>, rows: seq<Row>)
    requires Insertable(columns, rows) && rows != []
    ensures AllTaken(columns, rows) <==>
              RowFits(RowValues(columns, rows[0]), DefsOf(columns)) && AllTaken(columns, rows[1..])
  {
    if RowFits(RowValues(columns, rows[0]), DefsOf(columns)) && AllTaken(columns, rows[1..]) {
      forall i | 0 <= i < |rows| ensures RowFits(RowValues(columns, rows[i]), DefsOf(columns)) {
        if i > 0 { assert rows[1..][i - 1] == rows[i]; }
      }
    }
  }

  lemma InsertStmtsCons(table: string, columns: seq<SqlColumn>, rows: seq<Row>, db: Db)
    requires Insertable(columns, rows) && rows != []
    ensures var first := Exec(Insert(table, ColumnNames(columns), RowValues(columns, rows[0])), db);
            ExecAll(InsertStmts(table, columns, rows), db) ==
            if first.Ok? then ExecAll(InsertStmts(table, columns, rows[1..]), first.value) else Err
  {
    assert InsertStmts(table, columns, rows)[1..] == InsertStmts(table, columns, rows[1..]);
  }

  lemma StoredCons(columns: seq<SqlColumn>, rows: seq<Row>, stored: seq<seq<Value>>)
    requires Insertable(columns, rows) && rows != []
    ensures stored + [RowValues(columns, rows[0])] + Stored(columns, rows[1..]) == stored + Stored(columns, rows)
  {
  }

  lemma {:induction false} InsertsRun(db: Db, table: string, columns: seq<SqlColumn>, rows: seq<Row>,
                                      stored: seq<seq<Value>>)
    requires table in db.tables && db.tables[table] == DbTable(DefsOf(columns), stored) && Insertable(columns, rows)
    ensures ExecAll(InsertStmts(table, columns, rows), db)
         == if AllTaken(columns, rows) then Ok(WithRows(db, table, columns, stored + Stored(columns, rows))) else Err
    decreases |rows|
  {
    if rows == [] {
      assert stored + Stored(columns, rows) == stored;
      assert db.tables[table := db.tables[table]] == db.tables;
    } else {
      var values := RowValues(columns, rows[0]);
      InsertOne(db, table, columns, values, stored);
      InsertStmtsCons(table, columns, rows, db);
      TakenCons(columns, rows);
      if RowFits(values, DefsOf(columns)) {
        var next := WithRows(db, table, columns, stored + [values]);
        InsertsRun(next, table, columns, rows[1..], stored + [values]);
        StoredCons(columns, rows, stored);
        RewrittenRows(db, table, columns, stored + [values], stored + Stored(columns, rows));
      }
    }
  }

  lemma RewrittenRows(db: Db, table: string, columns: seq<SqlColumn>, a: seq<seq<Value>>, b: seq<seq<Value>>)
    ensures WithRows(WithRows(db, table, columns, a), table, columns, b) == WithRows(db, table, columns, b)
  {
  }

  /** A table and its rows, before its label. */
  lemma TableRuns(db: Db, table: string, columns: seq<SqlColumn>, rows: seq<Row>)
    requires Insertable(columns, rows)
    ensures ExecAll([CreateTable(table, DefsOf(columns))] + InsertStmts(table, columns, rows), db)
         == if table in db.tables || !AllTaken(columns, rows) then Err
            else Ok(WithRows(db, table, columns, Stored(columns, rows)))
  {
    var create := CreateTable(table, DefsOf(columns));
    NamesAreColumns(columns);
    ExecAppend([create], InsertStmts(table, columns, rows), db);
    ExecOne(create, db);
    if table !in db.tables {
      InsertsRun(WithRows(db, table, columns, []), table, columns, rows, []);
      assert [] + Stored(columns, rows) == Stored(columns, rows);
      RewrittenRows(db, table, columns, [], Stored(columns, rows));
    }
  }

  // ----- lines as statements -----

  function Run(lines: seq<Line>, db: Db): Result<Db>
    requires LinesOk(lines)
  {
    ExecAll(Stmts(lines), db)
  }

  lemma RunAppend(a: seq<Line>, b: seq<Line>, db: Db)
    requires LinesOk(a) && LinesOk(b)
    ensures LinesOk(a + b) && Run(a + b, db) == if Run(a, db).Ok? then Run(b, Run(a, db).value) else Err
  {
    assert Stmts(a + b) == Stmts(a) + Stmts(b);
    ExecAppend(Stmts(a), Stmts(b), db);
  }

  lemma StmtsCons(line: Line, more: seq<Line>)
    requires LineOk(line) && LinesOk(more)
    ensures LinesOk([line] + more) && Stmts([line] + more) == [LineStmt(line)] + Stmts(more)
  {
  }

  lemma {:induction false} InsertLinesStmts(table: string, columns: seq<SqlColumn>, rows: seq<Row>)
    requires Fits(table) && columns != [] && NamesFit(columns)
    requires forall i :: 0 <= i < |rows| ==> RowOk(columns, rows[i])
    ensures LinesOk(InsertLines(table, columns, rows))
    ensures Stmts(InsertLines(table, columns, rows)) == InsertStmts(table, columns, rows)
    decreases |rows|
  {
    if rows != [] {
      InsertLinesStmts(table, columns, rows[1..]);
      var line, more := InsertLine(table, columns, rows[0]), InsertLines(table, columns, rows[1..]);
      StmtsCons(line, more);
      assert InsertStmts(table, columns, rows) == [LineStmt(line)] + InsertStmts(table, columns, rows[1..]);
    }
  }

  ghost predicate TableReady(name: string, columns: Columns, rows: seq<Row>) {
    ColumnsReady(columns) && TableFits(name, columns, rows)
  }

  lemma ReadyInsertable(name: string, columns: Columns, rows: seq<Row>)
    requires TableReady(name, columns, rows)
    ensures OrderedColumns(columns) != [] && NamesFit(OrderedColumns(columns))
            && Insertable(OrderedColumns(columns), rows)
    ensures AllTaken(OrderedColumns(columns), rows) <==> TableFilled(columns, rows)
  {
    OrderedReady(columns);
    InOrderDistinct(ColumnNames(OrderedColumns(columns)));
    forall i | 0 <= i < |rows|
      ensures RowOk(OrderedColumns(columns), rows[i])
      ensures RowFits(RowValues(OrderedColumns(columns), rows[i]), DefsOf(OrderedColumns(columns)))
         <==> RowFilled(columns, rows[i])
    {
      RowReady(columns, rows[i]);
    }
  }

  /** A plan's table as the engine stores it. */
  ghost function StoredTable(name: string, columns: Columns, rows: seq<Row>): DbTable
    requires TableReady(name, columns, rows)
  {
    ReadyInsertable(name, columns, rows);
    DbTable(DefsOf(OrderedColumns(columns)), Stored(OrderedColumns(columns), rows))
  }

  /** Creating and filling a table succeeds exactly when the name is free and no cell of a NOT NULL column is blank; its
      label comes last. */
  lemma TableLinesRun(name: string, columns: Columns, rows: seq<Row>, labelLine: Line, db: Db)
    requires TableReady(name, columns, rows) && LineOk(labelLine)
    ensures LinesOk(TableLines(name, columns, rows, labelLine))
    ensures Run(TableLines(name, columns, rows, labelLine), db)
         == if name in db.tables || !TableFilled(columns, rows) then Err
            else Exec(LineStmt(labelLine), db.(tables := db.tables[name := StoredTable(name, columns, rows)]))
  {
    ReadyInsertable(name, columns, rows);
    var ordered := OrderedColumns(columns);
    var create, inserts := CreateLine(name, ordered), InsertLines(name, ordered, rows);
    InsertLinesStmts(name, ordered, rows);
    StmtsCons(create, inserts);
    TableRuns(db, name, ordered, rows);
    RunAppend([create] + inserts, [labelLine], db);
    StmtsCons(labelLine, []);
    assert [labelLine] + [] == [labelLine] && [LineStmt(labelLine)] + Stmts([]) == [LineStmt(labelLine)];
    if name !in db.tables && TableFilled(columns, rows) {
      ExecOne(LineStmt(labelLine), db.(tables := db.tables[name := StoredTable(name, columns, rows)]));
    }
  }

  // ----- databases that imports built -----

  ghost predicate ImportDb(db: Db) {
    && (forall l :: l in db.nodeLabels ==> db.nodeLabels[l] == l && l in db.tables)
    && (forall l :: l in db.edgeLabels ==> db.edgeLabels[l].table == l && l in db.tables)
  }

  ghost predicate NodeReady(name: string, t: Table) { TableOk(name, t) && TableFits(name, t.columns, t.rows) }

  ghost predicate RelReady(name: string, t: RelTable) {
    RelOk(name, t) && TableFits(name, t.columns, t.rows) && Fits(t.source) && Fits(t.target)
  }

  /** A stored table and its label, of the same name. */
  function WithNode(db: Db, name: string, stored: DbTable): Db {
    db.(tables := db.tables[name := stored], nodeLabels := db.nodeLabels[name := name])
  }

  function WithEdge(db: Db, name: string, stored: DbTable, edge: EdgeInfo): Db {
    db.(tables := db.tables[name := stored], edgeLabels := db.edgeLabels[name := edge])
  }

  /** The "id" column of a node table comes first. */
  lemma IdFirst(columns: Columns)
    requires ColumnsReady(columns) && ID in columns
    ensures OrderedColumns(columns) != [] && DefsOf(OrderedColumns(columns))[0].name == ID
  {
    OrderedReady(columns);
    var names := ColumnNames(OrderedColumns(columns));
    var i :| 0 <= i < |names| && names[i] == ID;
    assert i > 0 ==> Before(names[0], names[i]);
  }

  lemma HasOrdered(columns: Columns, c: string)
    requires ColumnsReady(columns) && c in columns
    ensures HasColumn(DefsOf(OrderedColumns(columns)), c)
  {
    OrderedReady(columns);
    var names := ColumnNames(OrderedColumns(columns));
    var i :| 0 <= i < |names| && names[i] == c;
    assert DefsOf(OrderedColumns(columns))[i].name == c;
  }

  lemma LabelNode(db: Db, name: string, stored: DbTable)
    requires ImportDb(db) && name !in db.tables && stored.defs != [] && stored.defs[0].name == ID
    ensures Exec(NodeLabel(name, name), db.(tables := db.tables[name := stored])) == Ok(WithNode(db, name, stored))
    ensures ImportDb(WithNode(db, name, stored))
  {
    var filled := db.(tables := db.tables[name := stored]);
    assert !BacksNode(filled, name) && !BacksEdge(filled, name);
  }

  lemma LabelEdge(db: Db, name: string, stored: DbTable, edge: EdgeInfo)
    requires ImportDb(db) && name !in db.tables && HasColumn(stored.defs, SOURCE_ID)
             && HasColumn(stored.defs, TARGET_ID)
    requires edge.table == name
    ensures Exec(EdgeLabel(name, name, edge.source, edge.target), db.(tables := db.tables[name := stored]))
         == if edge.source in db.nodeLabels && edge.target in db.nodeLabels then Ok(WithEdge(db, name, stored, edge))
            else Err
    ensures ImportDb(WithEdge(db, name, stored, edge))
  {
    var filled := db.(tables := db.tables[name := stored]);
    assert !BacksNode(filled, name) && !BacksEdge(filled, name);
  }

  lemma StoredDefs(name: string, columns: Columns, rows: seq<Row>)
    requires TableReady(name, columns, rows)
    ensures ID in columns ==>
              StoredTable(name, columns, rows).defs != [] && StoredTable(name, columns, rows).defs[0].name == ID
    ensures SOURCE_ID in columns ==> HasColumn(StoredTable(name, columns, rows).defs, SOURCE_ID)
    ensures TARGET_ID in columns ==> HasColumn(StoredTable(name, columns, rows).defs, TARGET_ID)
  {
    if ID in columns { IdFirst(columns); }
    if SOURCE_ID in columns { HasOrdered(columns, SOURCE_ID); }
    if TARGET_ID in columns { HasOrdered(columns, TARGET_ID); }
  }

  lemma NodeRuns(db: Db, name: string, t: Table)
    requires ImportDb(db) && NodeReady(name, t)
    ensures LinesOk(NodeTableLines(t))
    ensures Run(NodeTableLines(t), db)
         == if name in db.tables || !TableFilled(t.columns, t.rows) then Err
            else Ok(WithNode(db, name, StoredTable(name, t.columns, t.rows)))
    ensures name !in db.tables ==> ImportDb(WithNode(db, name, StoredTable(name, t.columns, t.rows)))
  {
    TableLinesRun(name, t.columns, t.rows, NodeLine(name), db);
    StoredDefs(name, t.columns, t.rows);
    if name !in db.tables { LabelNode(db, name, StoredTable(name, t.columns, t.rows)); }
  }

  lemma RelRuns(db: Db, name: string, t: RelTable)
    requires ImportDb(db) && RelReady(name, t)
    ensures LinesOk(RelTableLines(t))
    ensures Run(RelTableLines(t), db)
         == if name in db.tables || !TableFilled(t.columns, t.rows) then Err
            else if t.source !in db.nodeLabels || t.target !in db.nodeLabels then Err
            else Ok(WithEdge(db, name, StoredTable(name, t.columns, t.rows), EdgeInfo(name, t.source, t.target)))
    ensures name !in db.tables ==>
              ImportDb(WithEdge(db, name, StoredTable(name, t.columns, t.rows), EdgeInfo(name, t.source, t.target)))
  {
    TableLinesRun(name, t.columns, t.rows, EdgeLine(name, t.source, t.target), db);
    StoredDefs(name, t.columns, t.rows);
    if name !in db.tables {
      LabelEdge(db, name, StoredTable(name, t.columns, t.rows), EdgeInfo(name, t.source, t.target));
    }
  }
}
