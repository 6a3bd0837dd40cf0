/** The SQL script the importer prints (xtask/src/neo4j_import.rs).

    A Line is one printed statement. LineText is its text; the methods below build the whole script in a
    buffer, as the source does, and are proved to print the lines of the plan in order. */
module SqlText {
  import opened Text
  import opened Ordering
  import opened Neo4jCsv
  import opened Neo4jImport
  import opened Neo4jColumns

  function QuoteIdent(name: string): string { "\"" + Doubled(name, '"') + "\"" }

  function TypeText(t: SqlType): string {
    match t
    case BIGINT => "BIGINT"
    case DOUBLE => "DOUBLE"
    case BOOLEAN => "BOOLEAN"
    case TEXT => "TEXT"
  }

  function SqlLiteral(value: string, t: SqlType): string {
    if Trim(value) == [] then "NULL"
    else if t == BIGINT || t == DOUBLE then Trim(value)
    else if t == BOOLEAN && ToLower(value) == "true" then "TRUE"
    else if t == BOOLEAN && ToLower(value) == "false" then "FALSE"
    else "'" + Doubled(value, '\'') + "'"
  }

  /** Columns of these names are declared NOT NULL in every table. */
  predicate NotNull(name: string) { name == ID || name == SOURCE_ID || name == TARGET_ID }

  function Cell(row: Row, name: string): string { if name in row then row[name] else "" }

  function DefText(col: SqlColumn): string {
    QuoteIdent(col.name) + " " + TypeText(col.dataType) + (if NotNull(col.name) then " NOT NULL" else "")
  }

  function DefTexts(columns: seq<SqlColumn>): (r: seq<string>) {
    seq(|columns|, i requires 0 <= i < |columns| => DefText(columns[i]))
  }

  function NameTexts(columns: seq<SqlColumn>): (r: seq<string>) {
    seq(|columns|, i requires 0 <= i < |columns| => QuoteIdent(columns[i].name))
  }

  function LiteralTexts(columns: seq<SqlColumn>, row: Row): (r: seq<string>) {
    seq(|columns|, i requires 0 <= i < |columns| => SqlLiteral(Cell(row, columns[i].name), columns[i].dataType))
  }

  // ----- printed statements -----

  datatype Line =
    | BeginLine
    | CreateLine(table: string, columns: seq<SqlColumn>)
    | InsertLine(table: string, columns: seq<SqlColumn>, row: Row)
    | NodeLine(table: string)
    | EdgeLine(table: string, source: string, target: string)
    | CommitLine

  function LineText(line: Line): string {
    match line
    case BeginLine => "BEGIN;\n"
    case CreateLine(table, columns) =>
      "CREATE TABLE " + QuoteIdent(table) + " (" + Join(DefTexts(columns), ", ") + ");\n"
    case InsertLine(table, columns, row) =>
      "INSERT INTO " + QuoteIdent(table) + " (" + Join(NameTexts(columns), ", ") + ") VALUES ("
      + Join(LiteralTexts(columns, row), ", ") + ");\n"
    case NodeLine(table) => "CREATE NODE LABEL " + QuoteIdent(table) + " ON " + QuoteIdent(table) + ";\n"
    case EdgeLine(table, source, target) =>
      "CREATE EDGE LABEL " + QuoteIdent(table) + " ON " + QuoteIdent(table)
      + " SOURCE " + QuoteIdent(source) + " TARGET " + QuoteIdent(target) + ";\n"
    case CommitLine => "COMMIT;\n"
  }

  function Texts(lines: seq<Line>): (r: seq<string>) {
    seq(|lines|, i requires 0 <= i < |lines| => LineText(lines[i]))
  }

  function LinesText(lines: seq<Line>): string { Concat(Texts(lines)) }

  function InsertLines(table: string, columns: seq<SqlColumn>, rows: seq<Row>): seq<Line> {
    if rows == [] then [] else [InsertLine(table, columns, rows[0])] + InsertLines(table, columns, rows[1..])
  }

  function TableLines(name: string, columns: Columns, rows: seq<Row>, labelLine: Line): seq<Line> {
    [CreateLine(name, OrderedColumns(columns))] + InsertLines(name, OrderedColumns(columns), rows) + [labelLine]
  }

  function NodeTableLines(t: Table): seq<Line> { TableLines(t.name, t.columns, t.rows, NodeLine(t.name)) }

  function RelTableLines(t: RelTable): seq<Line> {
    TableLines(t.name, t.columns, t.rows, EdgeLine(t.name, t.source, t.target))
  }

  function NodesLines(nodes: map<string, Table>, names: seq<string>): seq<Line>
    requires forall i :: 0 <= i < |names| ==> names[i] in nodes
  {
    if names == [] then [] else NodeTableLines(nodes[names[0]]) + NodesLines(nodes, names[1..])
  }

  function RelsLines(rels: map<string, RelTable>, names: seq<string>): seq<Line>
    requires forall i :: 0 <= i < |names| ==> names[i] in rels
  {
    if names == [] then [] else RelTableLines(rels[names[0]]) + RelsLines(rels, names[1..])
  }

  /** The script of a plan: every node table in the order of the names, then every relationship table. */
  function PlanLines(plan: Plan): seq<Line> {
    SortedIn(plan.nodes.Keys); SortedIn(plan.rels.Keys);
    [BeginLine] + NodesLines(plan.nodes, Sorted(plan.nodes.Keys)) + RelsLines(plan.rels, Sorted(plan.rels.Keys))
    + [CommitLine]
  }

  lemma SortedIn(names: set<string>)
    ensures forall i :: 0 <= i < |Sorted(names)| ==> Sorted(names)[i] in names
  {
    forall i | 0 <= i < |Sorted(names)| ensures Sorted(names)[i] in names {
      assert Sorted(names)[i] in Sorted(names);
    }
  }

  lemma LinesTextAppend(a: seq<Line>, b: seq<Line>)
    ensures LinesText(a + b) == LinesText(a) + LinesText(b)
  {
    ConcatAppend(Texts(a), Texts(b));
    assert Texts(a + b) == Texts(a) + Texts(b);
  }

  // ----- the buffer -----

  lemma LinesTextOne(line: Line)
    ensures LinesText([line]) == LineText(line)
  {
    ConcatOne(LineText(line));
    assert Texts([line]) == [LineText(line)];
  }

  lemma Assoc(a: string, b: string, c: string)
    ensures (a + b) + c == a + (b + c)
  {
  }

  method JoinTexts(parts: seq<string>) returns (r: string)
    ensures r == Join(parts, ", ")
  {
    r := "";
    var i := |parts|;
    while i > 0
      invariant 0 <= i <= |parts|
      invariant r == Join(parts[i..], ", ")
    {
      i := i - 1;
      assert parts[i..][1..] == parts[i + 1..];
      r := if i == |parts| - 1 then parts[i] else parts[i] + ", " + r;
    }
    assert parts[0..] == parts;
  }

  method RenderCreateTable(sql: string, table: string, columns: Columns) returns (r: string)
    ensures r == sql + LineText(CreateLine(table, OrderedColumns(columns)))
  {
    var opening := "CREATE TABLE " + QuoteIdent(table) + " (";
    r := sql + opening;
    var defs := JoinTexts(DefTexts(OrderedColumns(columns)));
    Assoc(sql, opening, defs);
    r := r + defs;
    Assoc(sql, opening + defs, ");\n");
    r := r + ");\n";
  }

  method RenderInsert(sql: string, table: string, columns: Columns, row: Row) returns (r: string)
    ensures r == sql + LineText(InsertLine(table, OrderedColumns(columns), row))
  {
    var ordered := OrderedColumns(columns);
    var names := JoinTexts(NameTexts(ordered));
    var values := JoinTexts(LiteralTexts(ordered, row));
    r := sql + ("INSERT INTO " + QuoteIdent(table) + " (" + names + ") VALUES (" + values + ");\n");
  }

  lemma InsertsStep(table: string, columns: seq<SqlColumn>, rows: seq<Row>, i: nat)
    requires i < |rows|
    ensures LinesText(InsertLines(table, columns, rows[i..]))
         == LineText(InsertLine(table, columns, rows[i])) + LinesText(InsertLines(table, columns, rows[i + 1..]))
  {
    assert rows[i..][1..] == rows[i + 1..];
    LinesTextAppend([InsertLine(table, columns, rows[i])], InsertLines(table, columns, rows[i + 1..]));
    LinesTextOne(InsertLine(table, columns, rows[i]));
  }

  lemma TableText(create: Line, inserts: seq<Line>, labelLine: Line)
    ensures LinesText([create] + inserts + [labelLine]) == LineText(create) + LinesText(inserts) + LineText(labelLine)
  {
    LinesTextAppend([create] + inserts, [labelLine]);
    LinesTextAppend([create], inserts);
    LinesTextOne(create);
    LinesTextOne(labelLine);
  }

  method RenderInserts(sql: string, name: string, columns: Columns, rows: seq<Row>) returns (r: string)
    ensures r == sql + LinesText(InsertLines(name, OrderedColumns(columns), rows))
  {
    ghost var ordered := OrderedColumns(columns);
    r := sql;
    assert rows[0..] == rows;
    for i := 0 to |rows|
      invariant r + LinesText(InsertLines(name, ordered, rows[i..])) ==
                sql + LinesText(InsertLines(name, ordered, rows))
    {
      InsertsStep(name, ordered, rows, i);
      Assoc(r, LineText(InsertLine(name, ordered, rows[i])), LinesText(InsertLines(name, ordered, rows[i + 1..])));
      r := RenderInsert(r, name, columns, rows[i]);
    }
    assert LinesText(InsertLines(name, ordered, rows[|rows|..])) == "";
  }

  method RenderTable(sql: string, name: string, columns: Columns, rows: seq<Row>, labelLine: Line) returns (r: string)
    ensures r == sql + LinesText(TableLines(name, columns, rows, labelLine))
  {
    ghost var create := CreateLine(name, OrderedColumns(columns));
    ghost var inserts := InsertLines(name, OrderedColumns(columns), rows);
    r := RenderCreateTable(sql, name, columns);
    r := RenderInserts(r, name, columns, rows);
    r := r + LineText(labelLine);
    TableText(create, inserts, labelLine);
    Assoc(sql, LineText(create), LinesText(inserts));
    Assoc(sql, LineText(create) + LinesText(inserts), LineText(labelLine));
  }

  lemma NodesStep(nodes: map<string, Table>, names: seq<string>, i: nat)
    requires i < |names| && forall k :: 0 <= k < |names| ==> names[k] in nodes
    ensures LinesText(NodesLines(nodes, names[i..]))
         == LinesText(NodeTableLines(nodes[names[i]])) + LinesText(NodesLines(nodes, names[i + 1..]))
  {
    assert names[i..][1..] == names[i + 1..];
    LinesTextAppend(NodeTableLines(nodes[names[i]]), NodesLines(nodes, names[i + 1..]));
  }

  lemma RelsStep(rels: map<string, RelTable>, names: seq<string>, i: nat)
    requires i < |names| && forall k :: 0 <= k < |names| ==> names[k] in rels
    ensures LinesText(RelsLines(rels, names[i..]))
         == LinesText(RelTableLines(rels[names[i]])) + LinesText(RelsLines(rels, names[i + 1..]))
  {
    assert names[i..][1..] == names[i + 1..];
    LinesTextAppend(RelTableLines(rels[names[i]]), RelsLines(rels, names[i + 1..]));
  }

  method RenderNodes(sql: string, nodes: map<string, Table>, names: seq<string>) returns (r: string)
    requires forall k :: 0 <= k < |names| ==> names[k] in nodes
    ensures r == sql + LinesText(NodesLines(nodes, names))
  {
    r := sql;
    assert names[0..] == names;
    for i := 0 to |names|
      invariant r + LinesText(NodesLines(nodes, names[i..])) == sql + LinesText(NodesLines(nodes, names))
    {
      var t := nodes[names[i]];
      NodesStep(nodes, names, i);
      Assoc(r, LinesText(NodeTableLines(t)), LinesText(NodesLines(nodes, names[i + 1..])));
      r := RenderTable(r, t.name, t.columns, t.rows, NodeLine(t.name));
    }
    assert LinesText(NodesLines(nodes, names[|names|..])) == "";
  }

  method RenderRels(sql: string, rels: map<string, RelTable>, names: seq<string>) returns (r: string)
    requires forall k :: 0 <= k < |names| ==> names[k] in rels
    ensures r == sql + LinesText(RelsLines(rels, names))
  {
    r := sql;
    assert names[0..] == names;
    for i := 0 to |names|
      invariant r + LinesText(RelsLines(rels, names[i..])) == sql + LinesText(RelsLines(rels, names))
    {
      var t := rels[names[i]];
      RelsStep(rels, names, i);
      Assoc(r, LinesText(RelTableLines(t)), LinesText(RelsLines(rels, names[i + 1..])));
      r := RenderTable(r, t.name, t.columns, t.rows, EdgeLine(t.name, t.source, t.target));
    }
    assert LinesText(RelsLines(rels, names[|names|..])) == "";
  }

  lemma PlanText(plan: Plan, nodes: seq<Line>, rels: seq<Line>)
    requires PlanLines(plan) == [BeginLine] + nodes + rels + [CommitLine]
    ensures LinesText(PlanLines(plan)) == "BEGIN;\n" + LinesText(nodes) + LinesText(rels) + "COMMIT;\n"
  {
    LinesTextAppend([BeginLine] + nodes + rels, [CommitLine]);
    LinesTextAppend([BeginLine] + nodes, rels);
    LinesTextAppend([BeginLine], nodes);
    LinesTextOne(BeginLine);
    LinesTextOne(CommitLine);
  }

  method RenderSql(plan: Plan) returns (sql: string)
    ensures sql == LinesText(PlanLines(plan))
  {
    sql := "BEGIN;\n";
    SortedIn(plan.nodes.Keys);
    SortedIn(plan.rels.Keys);
    var nodes, rels := Sorted(plan.nodes.Keys), Sorted(plan.rels.Keys);
    sql := RenderNodes(sql, plan.nodes, nodes);
    sql := RenderRels(sql, plan.rels, rels);
    sql := sql + "COMMIT;\n";
    PlanText(plan, NodesLines(plan.nodes, nodes), RelsLines(plan.rels, rels));
  }
}
