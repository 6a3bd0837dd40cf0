/** Every printed script is read back as the statements it was printed from. */
module SqlRoundTrip {
  import opened Wrappers
  import opened Text
  import opened Numbers
  import opened Neo4jCsv
  import opened SqlText
  import opened SqlLexer
  import opened SqlParser

  // ----- what a printed cell means -----

  /** Cells the tools agree on: any text, integers in range, and exactly true or false in any case. DOUBLE columns
      hold nothing. */
  predicate WellTyped(cell: string, t: SqlType) {
    || Trim(cell) == []
    || match t
       case BIGINT => ParseInt(Trim(cell)).Some?
       case DOUBLE => false
       case BOOLEAN => ToLower(cell) == "true" || ToLower(cell) == "false"
       case TEXT => true
  }

  function CellValue(cell: string, t: SqlType): Value
    requires WellTyped(cell, t)
  {
    if Trim(cell) == [] then Null
    else
      match t
      case BIGINT => Int(ParseInt(Trim(cell)).value)
      case BOOLEAN => Bool(ToLower(cell) == "true")
      case TEXT => Str(cell)
  }

  predicate LineOk(line: Line) {
    match line
    case BeginLine => true
    case CreateLine(table, columns) => Fits(table) && columns != [] && NamesFit(columns)
    case InsertLine(table, columns, row) =>
      Fits(table) && columns != [] && NamesFit(columns) && RowOk(columns, row)
    case NodeLine(table) => Fits(table)
    case EdgeLine(table, source, target) => Fits(table) && Fits(source) && Fits(target)
    case CommitLine => true
  }

  predicate NamesFit(columns: seq<SqlColumn>) { forall i :: 0 <= i < |columns| ==> Fits(columns[i].name) }

  predicate RowOk(columns: seq<SqlColumn>, row: Row) {
    forall i :: 0 <= i < |columns| ==> WellTyped(Cell(row, columns[i].name), columns[i].dataType)
  }

  function DefOf(col: SqlColumn): ColDef { ColDef(col.name, col.dataType, NotNull(col.name)) }

  function DefsOf(columns: seq<SqlColumn>): (r: seq<ColDef>) {
    seq(|columns|, i requires 0 <= i < |columns| => DefOf(columns[i]))
  }

  function ColumnNames(columns: seq<SqlColumn>): (r: seq<string>) {
    seq(|columns|, i requires 0 <= i < |columns| => columns[i].name)
  }

  function RowValues(columns: seq<SqlColumn>, row: Row): (r: seq<Value>)
    requires RowOk(columns, row)
  {
    seq(|columns|, i requires 0 <= i < |columns| => CellValue(Cell(row, columns[i].name), columns[i].dataType))
  }

  /** The statement a line was printed from. */
  function LineStmt(line: Line): Stmt
    requires LineOk(line)
  {
    match line
    case BeginLine => Begin
    case CreateLine(table, columns) => CreateTable(table, DefsOf(columns))
    case InsertLine(table, columns, row) => Insert(table, ColumnNames(columns), RowValues(columns, row))
    case NodeLine(table) => NodeLabel(table, table)
    case EdgeLine(table, source, target) => EdgeLabel(table, table, source, target)
    case CommitLine => Commit
  }

  // ----- tokens of a line -----

  function TypeKeyword(t: SqlType): Keyword {
    match t
    case BIGINT => KBigint
    case DOUBLE => KDouble
    case BOOLEAN => KBoolean
    case TEXT => KText
  }

  function DefTokens(col: SqlColumn): seq<Token> {
    [Name(col.name), Kw(TypeKeyword(col.dataType))] + if NotNull(col.name) then [Kw(KNot), Kw(KNull)] else []
  }

  /** Items with a comma between them. */
  function Commas(items: seq<seq<Token>>): seq<Token> {
    if items == [] then []
    else if |items| == 1 then items[0]
    else items[0] + ([Sym(',')] + Commas(items[1..]))
  }

  function DefItems(columns: seq<SqlColumn>): (r: seq<seq<Token>>) {
    seq(|columns|, i requires 0 <= i < |columns| => DefTokens(columns[i]))
  }

  function NameItems(columns: seq<SqlColumn>): (r: seq<seq<Token>>) {
    seq(|columns|, i requires 0 <= i < |columns| => [Name(columns[i].name)])
  }

  function IntTokens(s: string): seq<Token>
    requires ParseInt(s).Some?
  {
    if Signed(s) then [Sym(s[0]), Num(DigitsValue(s[1..]))] else [Num(DigitsValue(s))]
  }

  function CellTokens(cell: string, t: SqlType): seq<Token>
    requires WellTyped(cell, t)
  {
    if Trim(cell) == [] then [Kw(KNull)]
    else
      match t
      case BIGINT => IntTokens(Trim(cell))
      case BOOLEAN => if ToLower(cell) == "true" then [Kw(KTrue)] else [Kw(KFalse)]
      case TEXT => [Quote(cell)]
  }

  function CellItems(columns: seq<SqlColumn>, row: Row): (r: seq<seq<Token>>)
    requires RowOk(columns, row)
  {
    seq(|columns|, i requires 0 <= i < |columns| => CellTokens(Cell(row, columns[i].name), columns[i].dataType))
  }

  const CLOSE := [Sym(')')]
  const VALUES := [Kw(KValues), Sym('(')]
  const END := [Sym(';')]

  function LineTokens(line: Line): seq<Token>
    requires LineOk(line)
  {
    match line
    case BeginLine => [Kw(KBegin), Sym(';')]
    case CreateLine(table, columns) =>
      [Kw(KCreate), Kw(KTable), Name(table), Sym('(')] + (Commas(DefItems(columns)) + (CLOSE + END))
    case InsertLine(table, columns, row) =>
      [Kw(KInsert), Kw(KInto), Name(table), Sym('(')]
      + (Commas(NameItems(columns)) + (CLOSE + (VALUES + (Commas(CellItems(columns, row)) + (CLOSE + END)))))
    case NodeLine(table) => [Kw(KCreate), Kw(KNode), Kw(KLabel), Name(table), Kw(KOn), Name(table), Sym(';')]
    case EdgeLine(table, source, target) =>
      [Kw(KCreate), Kw(KEdge), Kw(KLabel), Name(table), Kw(KOn), Name(table), Kw(KSource), Name(source),
       Kw(KTarget), Name(target), Sym(';')]
    case CommitLine => [Kw(KCommit), Sym(';')]
  }

  // ----- parsing the tokens of a line -----

  lemma ParseDefBack(col: SqlColumn, rest: seq<Token>)
    requires rest != [] && rest[0].Sym?
    ensures ParseDef(DefTokens(col) + rest) == Ok(Parsed(DefOf(col), rest))
  {
    var item := DefTokens(col);
    assert (item + rest)[|item|..] == rest;
  }

  lemma DefsEnd(ts: seq<Token>, def: ColDef, rest: seq<Token>)
    requires ParseDef(ts) == Ok(Parsed(def, CLOSE + rest))
    ensures ParseDefs(ts) == Ok(Parsed([def], rest))
  {
    assert (CLOSE + rest)[1..] == rest;
  }

  lemma DefsMore(item: seq<Token>, def: ColDef, others: seq<Token>, more: seq<ColDef>, rest: seq<Token>)
    requires ParseDef(item + ([Sym(',')] + (others + (CLOSE + rest)))) ==
             Ok(Parsed(def, [Sym(',')] + (others + (CLOSE + rest))))
    requires ParseDefs(others + (CLOSE + rest)) == Ok(Parsed(more, rest))
    ensures ParseDefs((item + ([Sym(',')] + others)) + (CLOSE + rest)) == Ok(Parsed([def] + more, rest))
  {
    var tail := others + (CLOSE + rest);
    Commas3(item, others, CLOSE + rest);
    assert ([Sym(',')] + tail)[1..] == tail;
  }

  lemma DefItemsMore(columns: seq<SqlColumn>)
    requires |columns| > 1
    ensures Commas(DefItems(columns)) == DefTokens(columns[0]) + ([Sym(',')] + Commas(DefItems(columns[1..])))
    ensures DefsOf(columns) == [DefOf(columns[0])] + DefsOf(columns[1..])
  {
    assert DefItems(columns)[1..] == DefItems(columns[1..]);
  }

  lemma {:induction false} ParseDefsBack(columns: seq<SqlColumn>, rest: seq<Token>)
    requires columns != []
    ensures ParseDefs(Commas(DefItems(columns)) + (CLOSE + rest)) == Ok(Parsed(DefsOf(columns), rest))
    decreases |columns|
  {
    var col := columns[0];
    if |columns| == 1 {
      ParseDefBack(col, CLOSE + rest);
      DefsEnd(DefTokens(col) + (CLOSE + rest), DefOf(col), rest);
      assert DefsOf(columns) == [DefOf(col)];
    } else {
      ParseDefsBack(columns[1..], rest);
      DefItemsMore(columns);
      var others := Commas(DefItems(columns[1..]));
      ParseDefBack(col, [Sym(',')] + (others + (CLOSE + rest)));
      DefsMore(DefTokens(col), DefOf(col), others, DefsOf(columns[1..]), rest);
    }
  }

  lemma Commas3(a: seq<Token>, b: seq<Token>, c: seq<Token>)
    ensures (a + ([Sym(',')] + b)) + c == a + ([Sym(',')] + (b + c))
  {
  }

  lemma {:induction false} ParseNamesBack(columns: seq<SqlColumn>, rest: seq<Token>)
    requires columns != []
    ensures ParseNames(Commas(NameItems(columns)) + (CLOSE + rest)) == Ok(Parsed(ColumnNames(columns), rest))
    decreases |columns|
  {
    var items := NameItems(columns);
    var ts := Commas(items) + (CLOSE + rest);
    if |columns| == 1 {
      assert ts[2..] == rest;
      assert ColumnNames(columns) == [columns[0].name];
    } else {
      ParseNamesBack(columns[1..], rest);
      assert items[1..] == NameItems(columns[1..]);
      assert ts[2..] == Commas(items[1..]) + (CLOSE + rest);
      assert ColumnNames(columns) == [columns[0].name] + ColumnNames(columns[1..]);
    }
  }

  ghost predicate ValueReads(item: seq<Token>, value: Value) {
    forall rest :: ParseValue(item + rest) == Ok(Parsed(value, rest))
  }

  lemma ValuesEnd(ts: seq<Token>, value: Value, rest: seq<Token>)
    requires ParseValue(ts) == Ok(Parsed(value, CLOSE + rest))
    ensures ParseValues(ts) == Ok(Parsed([value], rest))
  {
    assert (CLOSE + rest)[1..] == rest;
  }

  lemma ValuesMore(ts: seq<Token>, value: Value, tail: seq<Token>, more: Parsed<seq<Value>>)
    requires ParseValue(ts) == Ok(Parsed(value, [Sym(',')] + tail)) && ParseValues(tail) == Ok(more)
    ensures ParseValues(ts) == Ok(Parsed([value] + more.value, more.rest))
  {
    assert ([Sym(',')] + tail)[1..] == tail;
  }

  lemma {:induction false} ParseValuesBack(items: seq<seq<Token>>, values: seq<Value>, rest: seq<Token>)
    requires items != [] && |items| == |values| && forall i :: 0 <= i < |items| ==> ValueReads(items[i], values[i])
    ensures ParseValues(Commas(items) + (CLOSE + rest)) == Ok(Parsed(values, rest))
    decreases |items|
  {
    assert ValueReads(items[0], values[0]);
    if |items| == 1 {
      ValuesEnd(items[0] + (CLOSE + rest), values[0], rest);
      assert values == [values[0]];
    } else {
      ParseValuesBack(items[1..], values[1..], rest);
      var tail := Commas(items[1..]) + (CLOSE + rest);
      Commas3(items[0], Commas(items[1..]), CLOSE + rest);
      ValuesMore(items[0] + ([Sym(',')] + tail), values[0], tail, Parsed(values[1..], rest));
      assert values == [values[0]] + values[1..];
    }
  }

  lemma CellReadsBack(cell: string, t: SqlType)
    requires WellTyped(cell, t)
    ensures ValueReads(CellTokens(cell, t), CellValue(cell, t))
  {
    var item := CellTokens(cell, t);
    forall rest: seq<Token> ensures ParseValue(item + rest) == Ok(Parsed(CellValue(cell, t), rest)) {
      assert (item + rest)[|item|..] == rest;
    }
  }

  lemma ParseCreateBack(table: string, columns: seq<SqlColumn>, rest: seq<Token>)
    requires columns != []
    ensures ParseCreateTable([Name(table), Sym('(')] + (Commas(DefItems(columns)) + (CLOSE + (END + rest))))
         == Ok(Parsed(CreateTable(table, DefsOf(columns)), rest))
  {
    var items := DefItems(columns);
    ParseDefsBack(columns, END + rest);
    CreateShape(table, Commas(items) + (CLOSE + (END + rest)), DefsOf(columns), rest);
  }

  lemma CreateShape(table: string, inner: seq<Token>, defs: seq<ColDef>, rest: seq<Token>)
    requires ParseDefs(inner) == Ok(Parsed(defs, END + rest))
    ensures ParseCreateTable([Name(table), Sym('(')] + inner) == Ok(Parsed(CreateTable(table, defs), rest))
  {
    assert ([Name(table), Sym('(')] + inner)[2..] == inner;
    assert (END + rest)[1..] == rest;
  }

  lemma InsertShape(table: string, inner: seq<Token>, names: seq<string>, list: seq<Token>, values: seq<Value>,
                    rest: seq<Token>)
    requires ParseNames(inner) == Ok(Parsed(names, VALUES + list))
             && ParseValues(list) == Ok(Parsed(values, END + rest))
    ensures ParseInsert([Name(table), Sym('(')] + inner) == Ok(Parsed(Insert(table, names, values), rest))
  {
    assert ([Name(table), Sym('(')] + inner)[2..] == inner;
    assert (VALUES + list)[2..] == list;
    assert (END + rest)[1..] == rest;
  }

  lemma ParseRowBack(columns: seq<SqlColumn>, row: Row, rest: seq<Token>)
    requires columns != [] && RowOk(columns, row)
    ensures ParseValues(Commas(CellItems(columns, row)) + (CLOSE + rest)) == Ok(Parsed(RowValues(columns, row), rest))
  {
    var items, values := CellItems(columns, row), RowValues(columns, row);
    forall i | 0 <= i < |items| ensures ValueReads(items[i], values[i]) {
      CellReadsBack(Cell(row, columns[i].name), columns[i].dataType);
    }
    ParseValuesBack(items, values, rest);
  }

  lemma ParseInsertBack(table: string, columns: seq<SqlColumn>, row: Row, rest: seq<Token>)
    requires columns != [] && RowOk(columns, row)
    ensures ParseInsert([Name(table), Sym('(')] + (Commas(NameItems(columns)) + (CLOSE + (VALUES
                        + (Commas(CellItems(columns, row)) + (CLOSE + (END + rest)))))))
         == Ok(Parsed(Insert(table, ColumnNames(columns), RowValues(columns, row)), rest))
  {
    var list := Commas(CellItems(columns, row)) + (CLOSE + (END + rest));
    ParseNamesBack(columns, VALUES + list);
    ParseRowBack(columns, row, END + rest);
    InsertShape(table, Commas(NameItems(columns)) + (CLOSE + (VALUES + list)), ColumnNames(columns), list,
                RowValues(columns, row), rest);
  }

  lemma CreateTokensShape(table: string, defs: seq<Token>, rest: seq<Token>)
    ensures var ts := ([Kw(KCreate), Kw(KTable), Name(table), Sym('(')] + (defs + (CLOSE + END))) + rest;
            && |ts| >= 3 && ts[0] == Kw(KCreate) && ts[1] == Kw(KTable)
            && ts[2..] == [Name(table), Sym('(')] + (defs + (CLOSE + (END + rest)))
  {
  }

  lemma InsertTokensShape(table: string, names: seq<Token>, values: seq<Token>, rest: seq<Token>)
    ensures var ts := ([Kw(KInsert), Kw(KInto), Name(table), Sym('(')]
                       + (names + (CLOSE + (VALUES + (values + (CLOSE + END)))))) + rest;
            && |ts| >= 3 && ts[0] == Kw(KInsert) && ts[1] == Kw(KInto)
            && ts[2..] == [Name(table), Sym('(')] + (names + (CLOSE + (VALUES + (values + (CLOSE + (END + rest))))))
  {
  }

  lemma ParseNodeBack(table: string, rest: seq<Token>)
    ensures ParseStmt([Kw(KCreate), Kw(KNode), Kw(KLabel), Name(table), Kw(KOn), Name(table), Sym(';')] + rest)
         == Ok(Parsed(NodeLabel(table, table), rest))
  {
    var body := [Name(table), Kw(KOn), Name(table)] + (END + rest);
    assert body[3..] == END + rest && (END + rest)[1..] == rest;
    var ts := [Kw(KCreate), Kw(KNode), Kw(KLabel), Name(table), Kw(KOn), Name(table), Sym(';')] + rest;
    assert ts[3..] == body;
  }

  lemma ParseEdgeBack(table: string, source: string, target: string, rest: seq<Token>)
    ensures ParseStmt([Kw(KCreate), Kw(KEdge), Kw(KLabel), Name(table), Kw(KOn), Name(table), Kw(KSource), Name(source),
                       Kw(KTarget), Name(target), Sym(';')] + rest)
         == Ok(Parsed(EdgeLabel(table, table, source, target), rest))
  {
    var body := [Name(table), Kw(KOn), Name(table), Kw(KSource), Name(source), Kw(KTarget), Name(target)]
                + (END + rest);
    assert body[7..] == END + rest && (END + rest)[1..] == rest;
    var ts := [Kw(KCreate), Kw(KEdge), Kw(KLabel), Name(table), Kw(KOn), Name(table), Kw(KSource), Name(source),
               Kw(KTarget), Name(target), Sym(';')] + rest;
    assert ts[3..] == body;
  }

  /** One statement back. */
  lemma ParseLineBack(line: Line, rest: seq<Token>)
    requires LineOk(line)
    ensures ParseStmt(LineTokens(line) + rest) == Ok(Parsed(LineStmt(line), rest))
  {
    var ts := LineTokens(line) + rest;
    match line
    case BeginLine => assert ts[1..][1..] == rest;
    case CommitLine => assert ts[1..][1..] == rest;
    case CreateLine(table, columns) =>
      ParseCreateBack(table, columns, rest);
      CreateTokensShape(table, Commas(DefItems(columns)), rest);
    case InsertLine(table, columns, row) =>
      ParseInsertBack(table, columns, row, rest);
      InsertTokensShape(table, Commas(NameItems(columns)), Commas(CellItems(columns, row)), rest);
    case NodeLine(table) => ParseNodeBack(table, rest);
    case EdgeLine(table, source, target) => ParseEdgeBack(table, source, target, rest);
  }
}
