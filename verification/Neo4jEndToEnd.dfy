/** From CSV files to a verified database: plan, print, run, compare. */
module Neo4jEndToEnd {
  import opened Wrappers
  import opened Neo4jCsv
  import opened Neo4jImport
  import opened Neo4jColumns
  import opened Neo4jResume
  import opened Neo4jVerify
  import opened SqlText
  import opened SqlParser
  import opened SqlRoundTrip
  import opened SqlEngine
  import opened Neo4jExecution
  import opened Neo4jPlanRun
  import Parity = Neo4jParity
  import Exact = Neo4jParityExact

  /** The verifier reports a table ok, in whatever order the engine returns its rows. */
  ghost predicate Verified(db: Db, name: string, types: Types, rows: seq<Row>) {
    && name in db.tables && Rectangular(db.tables[name]) && HasColumns(db.tables[name].defs, OrderedNames(types))
    && Parity.AllComparable(types, rows)
    && forall actual :: multiset(actual) == multiset(Select(db.tables[name], OrderedNames(types))) ==>
         Parity.ParityOk(types, rows, actual)
  }

  lemma PositionAt(columns: seq<SqlColumn>, i: nat)
    requires DistinctNames(ColumnNames(columns)) && i < |columns|
    ensures HasColumn(DefsOf(columns), columns[i].name) && Position(DefsOf(columns), columns[i].name) == i
  {
    assert DefsOf(columns)[i].name == columns[i].name;
    var p := Position(DefsOf(columns), columns[i].name);
    assert ColumnNames(columns)[p] == ColumnNames(columns)[i];
  }

  /** Selecting all columns in their order gives the rows back. */
  lemma SelectAll(columns: seq<SqlColumn>, t: DbTable)
    requires t.defs == DefsOf(columns) && DistinctNames(ColumnNames(columns)) && Rectangular(t)
    ensures HasColumns(t.defs, ColumnNames(columns)) && Select(t, ColumnNames(columns)) == t.rows
  {
    forall i | 0 <= i < |columns|
      ensures HasColumn(t.defs, ColumnNames(columns)[i]) && Position(t.defs, ColumnNames(columns)[i]) == i
    {
      PositionAt(columns, i);
    }
    forall k | 0 <= k < |t.rows| ensures Project(t.defs, ColumnNames(columns), t.rows[k]) == t.rows[k] { }
  }

  /** The columns the two tools go through, side by side. */
  lemma SameColumn(columns: Columns, i: nat)
    requires ColumnsReady(columns) && i < |OrderedColumns(columns)|
    ensures |OrderedNames(TypesOf(columns))| == |OrderedColumns(columns)|
    ensures var col := OrderedColumns(columns)[i];
            && col.name in columns && col == columns[col.name]
            && OrderedNames(TypesOf(columns))[i] == col.name && TypesOf(columns)[col.name] == col.dataType
  {
    OrderedReady(columns);
    OrderedColumnsAgree(columns);
    assert NamesOf(OrderedColumns(columns))[i] == OrderedColumns(columns)[i].name;
  }

  lemma RowIsOk(columns: Columns, row: Row)
    requires ColumnsReady(columns) && RowFitsColumns(columns, row)
    ensures RowOk(OrderedColumns(columns), row) && Parity.Comparable(TypesOf(columns), row)
  {
    var ordered := OrderedColumns(columns);
    Parity.WellTypedIsComparable(TypesOf(columns), row);
    forall i | 0 <= i < |ordered| ensures WellTyped(Cell(row, ordered[i].name), ordered[i].dataType) {
      SameColumn(columns, i);
    }
  }

  lemma CellsNormalizeAlike(ordered: seq<SqlColumn>, types: Types, names: seq<string>, row: Row)
    requires RowOk(ordered, row) && Parity.Comparable(types, row) && |names| == |ordered|
    requires forall i :: 0 <= i < |names| ==> names[i] in types
    requires forall i :: 0 <= i < |names| ==> names[i] == ordered[i].name && types[names[i]] == ordered[i].dataType
    ensures Parity.ActualCells(RowValues(ordered, row)) == Parity.ExpectedCells(types, names, row)
  {
    var actual, expected := Parity.ActualCells(RowValues(ordered, row)), Parity.ExpectedCells(types, names, row);
    forall i | 0 <= i < |names| ensures actual[i] == expected[i] {
      Parity.CellsNormalizeAlike(Cell(row, names[i]), ordered[i].dataType);
    }
  }

  lemma SameNameCount(columns: Columns)
    requires ColumnsReady(columns)
    ensures |OrderedNames(TypesOf(columns))| == |OrderedColumns(columns)|
  {
    OrderedColumnsAgree(columns);
    assert |NamesOf(OrderedColumns(columns))| == |OrderedColumns(columns)|;
  }

  lemma RowNormalizesAlike(columns: Columns, row: Row)
    requires ColumnsReady(columns) && RowFitsColumns(columns, row)
    ensures RowOk(OrderedColumns(columns), row) && Parity.Comparable(TypesOf(columns), row)
    ensures Parity.ActualNorm(RowValues(OrderedColumns(columns), row)) == Parity.ExpectedNorm(TypesOf(columns), row)
  {
    var types, names := TypesOf(columns), OrderedNames(TypesOf(columns));
    RowIsOk(columns, row);
    Parity.NamesInTypes(types);
    SameNameCount(columns);
    forall i | 0 <= i < |names|
      ensures names[i] == OrderedColumns(columns)[i].name && types[names[i]] == OrderedColumns(columns)[i].dataType
    {
      SameColumn(columns, i);
    }
    CellsNormalizeAlike(OrderedColumns(columns), types, names, row);
  }

  /** A table stored from a plan passes the verifier's comparison. */
  lemma StoredIsVerified(db: Db, name: string, columns: Columns, rows: seq<Row>)
    requires TableReady(name, columns, rows) && name in db.tables && db.tables[name] == StoredTable(name, columns, rows)
    ensures Verified(db, name, TypesOf(columns), rows)
  {
    var ordered, types := OrderedColumns(columns), TypesOf(columns);
    ReadyInsertable(name, columns, rows);
    OrderedColumnsAgree(columns);
    assert NamesOf(ordered) == ColumnNames(ordered);
    var t := db.tables[name];
    SelectAll(ordered, t);
    forall i | 0 <= i < |rows|
      ensures Parity.Comparable(types, rows[i]) && Parity.ActualNorm(t.rows[i]) == Parity.ExpectedNorm(types, rows[i])
    {
      RowNormalizesAlike(columns, rows[i]);
    }
    forall actual | multiset(actual) == multiset(Select(t, OrderedNames(types)))
      ensures Parity.ParityOk(types, rows, actual)
    {
      Parity.SameRowsPass(types, rows, t.rows, actual);
    }
  }

  lemma NodeIsVerified(plan: Plan, db: Db, k: string)
    requires PlanReady(plan) && Accepts(plan, db) && k in plan.nodes
    ensures Verified(AfterPlan(plan, db), k, TypesOf(plan.nodes[k].columns), plan.nodes[k].rows)
  {
    NodesAreStored(plan, db, k);
    StoredIsVerified(AfterPlan(plan, db), k, plan.nodes[k].columns, plan.nodes[k].rows);
  }

  lemma RelIsVerified(plan: Plan, db: Db, k: string)
    requires PlanReady(plan) && k in plan.rels
    ensures Verified(AfterPlan(plan, db), k, TypesOf(plan.rels[k].columns), plan.rels[k].rows)
  {
    RelsAreStored(plan, db, k);
    StoredIsVerified(AfterPlan(plan, db), k, plan.rels[k].columns, plan.rels[k].rows);
  }

  ghost predicate AllVerified(db: Db, g: Graph) {
    && (forall k :: k in g.nodes ==> Verified(db, k, g.nodes[k].columns, g.nodes[k].rows))
    && (forall k :: k in g.rels ==> Verified(db, k, g.rels[k].columns, g.rels[k].rows))
  }

  lemma PlanIsVerified(plan: Plan, db: Db)
    requires PlanReady(plan) && Accepts(plan, db)
    ensures AllVerified(AfterPlan(plan, db), GraphOf(plan))
  {
    var after, g := AfterPlan(plan, db), GraphOf(plan);
    forall k | k in g.nodes ensures Verified(after, k, g.nodes[k].columns, g.nodes[k].rows) {
      NodeIsVerified(plan, db, k);
    }
    forall k | k in g.rels ensures Verified(after, k, g.rels[k].columns, g.rels[k].rows) { RelIsVerified(plan, db, k); }
  }

  /** The importer's own plans are ready once their cells and names fit. */
  lemma ImportedPlan(files: seq<CsvFile>)
    requires Succeeds(files, FRESH) && PlanFits(BuildPlan(files, FRESH).value)
    ensures PlanReady(BuildPlan(files, FRESH).value)
    ensures Expected(files) == Ok(GraphOf(BuildPlan(files, FRESH).value))
  {
    BuildKeeps(files, {}, EmptyPlan(map[]));
    FittingPlanIsReady(BuildPlan(files, FRESH).value);
    BuildersAgree(files);
  }

  /** For every export the importer accepts, with well-typed cells and names that fit: the engine runs the printed
      script exactly when no label is also a relationship type, no cell of a NOT NULL column is blank and every
      relationship table's ends are labels of the export; and then every table the verifier expects passes. */
  lemma ImportIsVerified(files: seq<CsvFile>)
    requires Succeeds(files, FRESH) && PlanFits(BuildPlan(files, FRESH).value)
    ensures var plan := BuildPlan(files, FRESH).value;
            var run := Execute(LinesText(PlanLines(plan)), EMPTY_DB);
            && Expected(files).Ok?
            && (run.Ok? <==>
                  plan.nodes.Keys !! plan.rels.Keys && PlanFilled(plan) && EndpointsIn(plan.rels, plan.nodes.Keys))
            && (run.Ok? ==> AllVerified(run.value, Expected(files).value))
  {
    var plan := BuildPlan(files, FRESH).value;
    ImportedPlan(files);
    ScriptRuns(plan, EMPTY_DB);
    ScriptRunsByKeys(plan, EMPTY_DB, {}, {});
    assert {} + plan.nodes.Keys == plan.nodes.Keys;
    if Accepts(plan, EMPTY_DB) { PlanIsVerified(plan, EMPTY_DB); }
  }

  // ----- what a verified table holds -----

  lemma StoredAsExpected(columns: Columns, row: Row)
    requires ColumnsReady(columns) && RowFitsColumns(columns, row) && RowFilled(columns, row)
    ensures RowOk(OrderedColumns(columns), row) && Exact.CellsFit(TypesOf(columns), row)
    ensures Exact.StoredRow(TypesOf(columns), row) == RowValues(OrderedColumns(columns), row)
  {
    var types, ordered := TypesOf(columns), OrderedColumns(columns);
    RowIsOk(columns, row);
    SameNameCount(columns);
    var stored, values := Exact.StoredRow(types, row), RowValues(ordered, row);
    forall i | 0 <= i < |ordered| ensures stored[i] == values[i] { SameColumn(columns, i); }
  }

  /** Conversely, a table of the plan's column types whose rows have the expected number and texts holds exactly the
      plan's rows, if those texts tell rows apart. */
  lemma VerifiedIsImported(name: string, columns: Columns, rows: seq<Row>, actual: seq<seq<Value>>)
    requires TableReady(name, columns, rows) && TableFilled(columns, rows)
    requires Parity.AllComparable(TypesOf(columns), rows)
    requires Exact.Telling(TypesOf(columns), rows)
    requires Exact.AllTyped(Exact.TableDefs(TypesOf(columns)), actual)
    requires Exact.SameCountAndSet(TypesOf(columns), rows, actual)
    ensures multiset(actual) == multiset(StoredTable(name, columns, rows).rows)
  {
    ReadyInsertable(name, columns, rows);
    forall i | 0 <= i < |rows|
      ensures Exact.CellsFit(TypesOf(columns), rows[i])
      ensures Exact.StoredRow(TypesOf(columns), rows[i]) == StoredTable(name, columns, rows).rows[i]
    {
      assert RowFilled(columns, rows[i]);
      StoredAsExpected(columns, rows[i]);
    }
    assert Exact.StoredRows(TypesOf(columns), rows) == StoredTable(name, columns, rows).rows;
    Exact.TellingPins(TypesOf(columns), rows, actual);
  }
}
