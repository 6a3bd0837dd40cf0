/** The graph the verifier rebuilds from the CSV files (xtask/src/neo4j_verify.rs), and why it is the
    importer's plan. The two programs share no code: the functions here follow the verifier's text. Functions that
    both programs define alike, such as the CSV parser and the forming of identifiers, are modelled once. */
module Neo4jVerify {
  import opened Wrappers
  import opened Text
  import opened Identifiers
  import opened Neo4jCsv
  import opened Neo4jImport
  import opened Neo4jColumns
  import opened Neo4jResume

  type Types = map<string, SqlType>

  datatype ExpectedTable = ExpectedTable(columns: Types, rows: seq<Row>)

  datatype ExpectedRel = ExpectedRel(source: string, target: string, columns: Types, rows: seq<Row>)

  datatype Graph = Graph(
    nodes: map<string, ExpectedTable>,
    rels: map<string, ExpectedRel>,
    labels: map<string, seq<string>>,
    failed: seq<FailedRow>)

  const EMPTY_GRAPH := Graph(map[], map[], map[], [])

  // ----- what a row, a file and an export add -----

  function Gather(h: Header, fields: seq<string>, i: nat, columns: Types, row: Row): (Types, Row)
    requires |fields| == |h.columns| && i <= |fields|
    decreases |fields| - i
  {
    if i == |fields| then (columns, row)
    else if IsMeta(h.columns[i]) then Gather(h, fields, i + 1, columns, row)
    else
      var col := ColumnOf(h.columns[i]);
      Gather(h, fields, i + 1,
             if col.name in columns then columns else columns[col.name := col.dataType],
             row[col.name := fields[i]])
  }

  function ExpectNode(nodes: map<string, ExpectedTable>, name: string, id: string, h: Header, fields: seq<string>):
    map<string, ExpectedTable>
    requires |fields| == |h.columns|
  {
    var t := if name in nodes then nodes[name] else ExpectedTable(map[], []);
    var (columns, row) := Gather(h, fields, 0, t.columns[ID := BIGINT], map[ID := id]);
    nodes[name := ExpectedTable(columns, t.rows + [row])]
  }

  function ExpectNodes(
    nodes: map<string, ExpectedTable>, names: seq<string>, id: string, h: Header, fields: seq<string>):
    map<string, ExpectedTable>
    requires |fields| == |h.columns|
    decreases |names|
  {
    if names == [] then nodes
    else ExpectNodes(ExpectNode(nodes, names[0], id, h, fields), names[1..], id, h, fields)
  }

  /** Rows the importer refuses for an empty or missing id are taken, or dropped, without a word. */
  function ExpectNodeRow(h: Header, fields: seq<string>, g: Graph): Graph
    requires |fields| == |h.columns| && HeaderOk(h)
  {
    if h.idAt.None? then g
    else
      var id, names := Trim(fields[h.idAt.value]), RowLabels(h, fields);
      g.(labels := g.labels[id := names], nodes := ExpectNodes(g.nodes, names, id, h, fields))
  }

  function ExpectRel(g: Graph, name: string, source: string, target: string, h: Header, fields: seq<string>): Graph
    requires |fields| == |h.columns|
  {
    var t := if name in g.rels then g.rels[name]
             else ExpectedRel(FirstLabel(g.labels, source), FirstLabel(g.labels, target),
                              map[SOURCE_ID := BIGINT, TARGET_ID := BIGINT], []);
    var (columns, row) := Gather(h, fields, 0, t.columns, map[SOURCE_ID := source, TARGET_ID := target]);
    g.(rels := g.rels[name := ExpectedRel(t.source, t.target, columns, t.rows + [row])])
  }

  function ExpectRelRow(h: Header, fields: seq<string>, g: Graph): Graph
    requires |fields| == |h.columns| && HeaderOk(h)
  {
    if h.startAt.None? || h.endAt.None? || h.typeAt.None? then g
    else
      ExpectRel(g, Sanitize(fields[h.typeAt.value]),
                Trim(fields[h.startAt.value]), Trim(fields[h.endAt.value]), h, fields)
  }

  function ExpectLine(h: Header, text: string, file: string, line: nat, g: Graph): Graph
    requires HeaderOk(h)
  {
    match ReadLine(h, text)
    case Skip => g
    case Bad(reason) => g.(failed := g.failed + [FailedRow(file, line, reason)])
    case Good(fields) => if IsRelationship(h) then ExpectRelRow(h, fields, g) else ExpectNodeRow(h, fields, g)
  }

  function ExpectLines(h: Header, file: CsvFile, i: nat, g: Graph): Graph
    requires HeaderOk(h) && i <= |file.lines|
    decreases |file.lines| - i
  {
    if i == |file.lines| then g
    else ExpectLines(h, file, i + 1, ExpectLine(h, file.lines[i], file.name, i + 1, g))
  }

  function ExpectFile(file: CsvFile, g: Graph): Result<Graph> {
    if file.lines == [] then Ok(g)
    else
      match ParseHeader(file.lines[0])
      case Err => Err
      case Ok(h) => Ok(ExpectLines(h, file, 1, g))
  }

  function ExpectFrom(files: seq<CsvFile>, g: Graph): Result<Graph>
    decreases |files|
  {
    if files == [] then Ok(g)
    else
      match ExpectFile(files[0], g)
      case Err => Err
      case Ok(next) => ExpectFrom(files[1..], next)
  }

  function Expected(files: seq<CsvFile>): Result<Graph> { ExpectFrom(files, EMPTY_GRAPH) }

  // ----- the object -----

  method GatherProperties(h: Header, fields: seq<string>, columns0: Types, row0: Row) returns (columns: Types, row: Row)
    requires |fields| == |h.columns|
    ensures (columns, row) == Gather(h, fields, 0, columns0, row0)
  {
    columns, row := columns0, row0;
    for i := 0 to |fields|
      invariant Gather(h, fields, i, columns, row) == Gather(h, fields, 0, columns0, row0)
    {
      if IsMeta(h.columns[i]) {
        continue;
      }
      var col := ColumnOf(h.columns[i]);
      if col.name !in columns {
        columns := columns[col.name := col.dataType];
      }
      row := row[col.name := fields[i]];
    }
  }

  class ExpectedGraph {
    var nodes: map<string, ExpectedTable>
    var rels: map<string, ExpectedRel>
    var labels: map<string, seq<string>>
    var failed: seq<FailedRow>

    ghost function Value(): Graph
      reads this
    {
      Graph(nodes, rels, labels, failed)
    }

    constructor ()
      ensures Value() == EMPTY_GRAPH
    {
      nodes, rels, labels, failed := map[], map[], map[], [];
    }

    method ScanNodeRow(h: Header, fields: seq<string>)
      requires |fields| == |h.columns| && HeaderOk(h)
      modifies this
      ensures Value() == ExpectNodeRow(h, fields, old(Value()))
    {
      if h.idAt.None? {
        return;
      }
      var id, names := Trim(fields[h.idAt.value]), RowLabels(h, fields);
      labels := labels[id := names];
      for i := 0 to |names|
        invariant ExpectNodes(nodes, names[i..], id, h, fields) == ExpectNodes(old(nodes), names, id, h, fields)
        invariant Value() == old(Value()).(labels := old(labels)[id := names], nodes := nodes)
      {
        assert names[i..][0] == names[i] && names[i..][1..] == names[i + 1..];
        var table := if names[i] in nodes then nodes[names[i]] else ExpectedTable(map[], []);
        var columns, row := GatherProperties(h, fields, table.columns[ID := BIGINT], map[ID := id]);
        nodes := nodes[names[i] := ExpectedTable(columns, table.rows + [row])];
      }
    }

    method ScanRelationshipRow(h: Header, fields: seq<string>)
      requires |fields| == |h.columns| && HeaderOk(h)
      modifies this
      ensures Value() == ExpectRelRow(h, fields, old(Value()))
    {
      if h.startAt.None? || h.endAt.None? || h.typeAt.None? {
        return;
      }
      var source, target := Trim(fields[h.startAt.value]), Trim(fields[h.endAt.value]);
      var name := SanitizeIdent(fields[h.typeAt.value]);
      var table := if name in rels then rels[name]
                   else ExpectedRel(FirstLabel(labels, source), FirstLabel(labels, target),
                                    map[SOURCE_ID := BIGINT, TARGET_ID := BIGINT], []);
      var columns, row := GatherProperties(h, fields, table.columns, map[SOURCE_ID := source, TARGET_ID := target]);
      rels := rels[name := ExpectedRel(table.source, table.target, columns, table.rows + [row])];
    }

    method ScanCsv(file: CsvFile) returns (r: Result<()>)
      modifies this
      ensures r.Ok? <==> ExpectFile(file, old(Value())).Ok?
      ensures r.Ok? ==> Value() == ExpectFile(file, old(Value())).value
      ensures r.Err? ==> Value() == old(Value())
    {
      if file.lines == [] {
        return Ok(());
      }
      var header := ReadHeader(file.lines[0]);
      if header.Err? {
        return Err;
      }
      var h := header.value;
      for i := 1 to |file.lines|
        invariant ExpectLines(h, file, i, Value()) == ExpectLines(h, file, 1, old(Value()))
      {
        var line := ReadLine(h, file.lines[i]);
        match line
        case Skip =>
        case Bad(reason) => failed := failed + [FailedRow(file.name, i + 1, reason)];
        case Good(fields) =>
          if IsRelationship(h) {
            ScanRelationshipRow(h, fields);
          } else {
            ScanNodeRow(h, fields);
          }
      }
      return Ok(());
    }
  }

  method BuildExpectedGraph(files: seq<CsvFile>) returns (r: Result<ExpectedGraph>)
    ensures r.Ok? <==> Expected(files).Ok?
    ensures r.Ok? ==> fresh(r.value) && r.value.Value() == Expected(files).value
  {
    var graph := new ExpectedGraph();
    assert files[0..] == files;
    for i := 0 to |files|
      invariant ExpectFrom(files[i..], graph.Value()) == Expected(files)
    {
      assert files[i..][0] == files[i] && files[i..][1..] == files[i + 1..];
      var scanned := graph.ScanCsv(files[i]);
      if scanned.Err? {
        return Err;
      }
    }
    return Ok(graph);
  }

  // ----- the two builders agree -----

  function AsExpected(t: Table): ExpectedTable { ExpectedTable(TypesOf(t.columns), t.rows) }

  function AsExpectedRel(t: RelTable): ExpectedRel { ExpectedRel(t.source, t.target, TypesOf(t.columns), t.rows) }

  function NodesOf(nodes: map<string, Table>): map<string, ExpectedTable> { map k | k in nodes :: AsExpected(nodes[k]) }

  function RelsOf(rels: map<string, RelTable>): map<string, ExpectedRel> { map k | k in rels :: AsExpectedRel(rels[k]) }

  /** A plan as the verifier would hold it. */
  function GraphOf(plan: Plan): Graph { Graph(NodesOf(plan.nodes), RelsOf(plan.rels), plan.labels, plan.failed) }

  /** The failures the verifier reports as well: lines that are not rows of the header's width. */
  predicate BadLine(f: FailedRow) { f.reason == UnterminatedQuote || f.reason == FieldCount }

  predicate OnlyBadLines(failed: seq<FailedRow>) { forall i :: 0 <= i < |failed| ==> BadLine(failed[i]) }

  lemma TypesOfInsert(columns: Columns, col: SqlColumn)
    ensures TypesOf(OrInsert(columns, col))
         == if col.name in columns then TypesOf(columns) else TypesOf(columns)[col.name := col.dataType]
  {
    assert TypesOf(OrInsert(columns, col)).Keys == OrInsert(columns, col).Keys;
  }

  lemma {:induction false} GatherAgrees(h: Header, fields: seq<string>, i: nat, columns: Columns, row: Row)
    requires |fields| == |h.columns| && i <= |fields|
    ensures var (columns', row') := Collect(h, fields, i, columns, row);
            Gather(h, fields, i, TypesOf(columns), row) == (TypesOf(columns'), row')
    decreases |fields| - i
  {
    if i < |fields| {
      if IsMeta(h.columns[i]) {
        GatherAgrees(h, fields, i + 1, columns, row);
      } else {
        var col := ColumnOf(h.columns[i]);
        TypesOfInsert(columns, col);
        GatherAgrees(h, fields, i + 1, OrInsert(columns, col), row[col.name := fields[i]]);
      }
    }
  }

  lemma NodeAgrees(nodes: map<string, Table>, name: string, id: string, h: Header, fields: seq<string>)
    requires |fields| == |h.columns| && NodesOk(nodes)
    ensures ExpectNode(NodesOf(nodes), name, id, h, fields) == NodesOf(PutNode(nodes, name, id, h, fields))
  {
    var t := NodeTable(nodes, name);
    assert TableOk(name, t);
    var e := if name in nodes then AsExpected(nodes[name]) else ExpectedTable(map[], []);
    assert e.columns[ID := BIGINT] == TypesOf(t.columns);
    GatherAgrees(h, fields, 0, t.columns, map[ID := id]);
  }

  lemma {:induction false} NodesAgree(nodes: map<string, Table>, names: seq<string>, id: string, h: Header,
                                      fields: seq<string>)
    requires |fields| == |h.columns| && NodesOk(nodes)
    ensures ExpectNodes(NodesOf(nodes), names, id, h, fields) == NodesOf(PutNodes(nodes, names, id, h, fields))
    decreases |names|
  {
    if names != [] {
      NodeAgrees(nodes, names[0], id, h, fields);
      PutNodeKeeps(nodes, names[0], id, h, fields);
      NodesAgree(PutNode(nodes, names[0], id, h, fields), names[1..], id, h, fields);
    }
  }

  lemma RelsOfPut(rels: map<string, RelTable>, name: string, t: RelTable)
    ensures RelsOf(rels[name := t]) == RelsOf(rels)[name := AsExpectedRel(t)]
  {
    assert RelsOf(rels[name := t]).Keys == rels.Keys + {name};
  }

  lemma RelAgrees(plan: Plan, name: string, source: string, target: string, h: Header, fields: seq<string>)
    requires |fields| == |h.columns|
    ensures ExpectRel(GraphOf(plan), name, source, target, h, fields)
         == GraphOf(PutRel(plan, name, source, target, h, fields))
  {
    var t := RelTableFor(plan, name, source, target);
    assert name !in plan.rels ==> TypesOf(t.columns) == map[SOURCE_ID := BIGINT, TARGET_ID := BIGINT];
    var row := map[SOURCE_ID := source, TARGET_ID := target];
    GatherAgrees(h, fields, 0, t.columns, row);
    var (columns, row') := Collect(h, fields, 0, t.columns, row);
    RelsOfPut(plan.rels, name, RelTable(t.name, t.source, t.target, columns, t.rows + [row']));
  }

  /** Whatever the importer accepts, the verifier reads alike. */
  lemma RelRowAgrees(h: Header, fields: seq<string>, file: string, line: nat, plan: Plan)
    requires |fields| == |h.columns| && HeaderOk(h) && RelRow(h, fields, file, line, plan).failed == plan.failed
    ensures ExpectRelRow(h, fields, GraphOf(plan)) == GraphOf(RelRow(h, fields, file, line, plan))
  {
    if h.startAt.Some? && h.endAt.Some? && h.typeAt.Some? {
      var kind := fields[h.typeAt.value];
      TrimTwice(kind);
      assert Sanitize(Trim(kind)) == Sanitize(kind);
      RelAgrees(plan, Sanitize(kind), Trim(fields[h.startAt.value]), Trim(fields[h.endAt.value]), h, fields);
    }
  }

  lemma NodeRowAgrees(h: Header, fields: seq<string>, file: string, line: nat, plan: Plan)
    requires |fields| == |h.columns| && HeaderOk(h) && NodesOk(plan.nodes)
    requires NodeRow(h, fields, file, line, plan).failed == plan.failed
    ensures ExpectNodeRow(h, fields, GraphOf(plan)) == GraphOf(NodeRow(h, fields, file, line, plan))
  {
    if h.idAt.Some? {
      NodesAgree(plan.nodes, RowLabels(h, fields), Trim(fields[h.idAt.value]), h, fields);
    }
  }

  lemma RelRowCases(h: Header, fields: seq<string>, file: string, line: nat, plan: Plan)
    requires |fields| == |h.columns| && HeaderOk(h)
    ensures var next := RelRow(h, fields, file, line, plan);
            || next.failed == plan.failed
            || next == Fail(plan, file, line, MissingColumn) || next == Fail(plan, file, line, EmptyEndpoint)
  {
  }

  lemma NodeRowCases(h: Header, fields: seq<string>, file: string, line: nat, plan: Plan)
    requires |fields| == |h.columns| && HeaderOk(h)
    ensures var next := NodeRow(h, fields, file, line, plan);
            || next.failed == plan.failed
            || next == Fail(plan, file, line, NoIdColumn) || next == Fail(plan, file, line, EmptyId)
  {
  }

  /** A refused row shows as a failure that is not a bad line. */
  lemma FailureShows(plan: Plan, file: string, line: nat, reason: Reason)
    ensures OnlyBadLines(Fail(plan, file, line, reason).failed) ==> reason == UnterminatedQuote || reason == FieldCount
  {
    var failed := Fail(plan, file, line, reason).failed;
    assert failed[|failed| - 1] == FailedRow(file, line, reason);
  }

  lemma TakenRow(h: Header, fields: seq<string>, file: string, line: nat, plan: Plan)
    requires |fields| == |h.columns| && HeaderOk(h)
    ensures OnlyBadLines(RelRow(h, fields, file, line, plan).failed) ==>
              RelRow(h, fields, file, line, plan).failed == plan.failed
    ensures OnlyBadLines(NodeRow(h, fields, file, line, plan).failed) ==>
              NodeRow(h, fields, file, line, plan).failed == plan.failed
  {
    RelRowCases(h, fields, file, line, plan);
    NodeRowCases(h, fields, file, line, plan);
    FailureShows(plan, file, line, MissingColumn);
    FailureShows(plan, file, line, EmptyEndpoint);
    FailureShows(plan, file, line, NoIdColumn);
    FailureShows(plan, file, line, EmptyId);
  }

  /** A row the importer accepts, or a line neither can read, moves both builders alike. */
  lemma LineAgrees(h: Header, text: string, file: string, line: nat, plan: Plan)
    requires HeaderOk(h) && PlanOk(plan) && OnlyBadLines(ScanLine(h, text, file, line, plan).failed)
    ensures ExpectLine(h, text, file, line, GraphOf(plan)) == GraphOf(ScanLine(h, text, file, line, plan))
  {
    var r := ReadLine(h, text);
    if r.Good? {
      TakenRow(h, r.fields, file, line, plan);
      if IsRelationship(h) {
        RelRowAgrees(h, r.fields, file, line, plan);
      } else {
        NodeRowAgrees(h, r.fields, file, line, plan);
      }
    }
  }

  lemma LineKeepsFailed(h: Header, text: string, file: string, line: nat, plan: Plan)
    requires HeaderOk(h)
    ensures plan.failed <= ScanLine(h, text, file, line, plan).failed
  {
    var r := ReadLine(h, text);
    if r.Good? {
      RelRowCases(h, r.fields, file, line, plan);
      NodeRowCases(h, r.fields, file, line, plan);
    }
  }

  lemma {:induction false} LinesKeepFailed(h: Header, file: CsvFile, i: nat, plan: Plan)
    requires HeaderOk(h) && i <= |file.lines|
    ensures plan.failed <= ScanLines(h, file, i, plan).failed
    decreases |file.lines| - i
  {
    if i < |file.lines| {
      LineKeepsFailed(h, file.lines[i], file.name, i + 1, plan);
      LinesKeepFailed(h, file, i + 1, ScanLine(h, file.lines[i], file.name, i + 1, plan));
    }
  }

  lemma {:induction false} LinesAgree(h: Header, file: CsvFile, i: nat, plan: Plan)
    requires HeaderOk(h) && i <= |file.lines| && PlanOk(plan) && OnlyBadLines(ScanLines(h, file, i, plan).failed)
    ensures ExpectLines(h, file, i, GraphOf(plan)) == GraphOf(ScanLines(h, file, i, plan))
    decreases |file.lines| - i
  {
    if i < |file.lines| {
      var next := ScanLine(h, file.lines[i], file.name, i + 1, plan);
      LinesKeepFailed(h, file, i + 1, next);
      LineAgrees(h, file.lines[i], file.name, i + 1, plan);
      ScanLineKeeps(h, file.lines[i], file.name, i + 1, plan);
      LinesAgree(h, file, i + 1, next);
    }
  }

  lemma {:induction false} BuildKeepsFailed(files: seq<CsvFile>, plan: Plan)
    ensures BuildFrom(files, {}, plan).Ok? ==> plan.failed <= BuildFrom(files, {}, plan).value.failed
    decreases |files|
  {
    if files != [] && ScanFile(files[0], plan).Ok? {
      if files[0].lines != [] { LinesKeepFailed(ParseHeader(files[0].lines[0]).value, files[0], 1, plan); }
      var next := ScanFile(files[0], plan).value;
      BuildKeepsFailed(files[1..], next.(processed := next.processed + [files[0].name]));
    }
  }

  lemma FileKeeps(file: CsvFile, plan: Plan)
    requires PlanOk(plan) && ScanFile(file, plan).Ok?
    ensures PlanOk(ScanFile(file, plan).value)
  {
    if file.lines != [] { ScanLinesKeeps(ParseHeader(file.lines[0]).value, file, 1, plan); }
  }

  lemma FileAgrees(file: CsvFile, plan: Plan)
    requires PlanOk(plan) && ScanFile(file, plan).Ok? && OnlyBadLines(ScanFile(file, plan).value.failed)
    ensures ExpectFile(file, GraphOf(plan)) == Ok(GraphOf(ScanFile(file, plan).value))
  {
    if file.lines != [] { LinesAgree(ParseHeader(file.lines[0]).value, file, 1, plan); }
  }

  lemma {:induction false} BuildAgrees(files: seq<CsvFile>, plan: Plan)
    requires PlanOk(plan) && BuildFrom(files, {}, plan).Ok? && OnlyBadLines(BuildFrom(files, {}, plan).value.failed)
    ensures ExpectFrom(files, GraphOf(plan)) == Ok(GraphOf(BuildFrom(files, {}, plan).value))
    decreases |files|
  {
    if files != [] {
      var scanned := ScanFile(files[0], plan).value;
      var next := scanned.(processed := scanned.processed + [files[0].name]);
      BuildKeepsFailed(files[1..], next);
      FileAgrees(files[0], plan);
      FileKeeps(files[0], plan);
      BuildAgrees(files[1..], next);
    }
  }

  lemma {:induction false} SameErrors(files: seq<CsvFile>, plan: Plan, g: Graph)
    ensures BuildFrom(files, {}, plan).Ok? <==> ExpectFrom(files, g).Ok?
    decreases |files|
  {
    if files != [] && ScanFile(files[0], plan).Ok? {
      var scanned := ScanFile(files[0], plan).value;
      SameErrors(files[1..], scanned.(processed := scanned.processed + [files[0].name]), ExpectFile(files[0], g).value);
    }
  }

  lemma {:induction false} ExpectLinesBad(h: Header, file: CsvFile, i: nat, g: Graph)
    requires HeaderOk(h) && i <= |file.lines| && OnlyBadLines(g.failed)
    ensures OnlyBadLines(ExpectLines(h, file, i, g).failed)
    decreases |file.lines| - i
  {
    if i < |file.lines| { ExpectLinesBad(h, file, i + 1, ExpectLine(h, file.lines[i], file.name, i + 1, g)); }
  }

  lemma {:induction false} ExpectedBad(files: seq<CsvFile>, g: Graph)
    requires OnlyBadLines(g.failed)
    ensures ExpectFrom(files, g).Ok? ==> OnlyBadLines(ExpectFrom(files, g).value.failed)
    decreases |files|
  {
    if files != [] && ExpectFile(files[0], g).Ok? {
      if files[0].lines != [] { ExpectLinesBad(ParseHeader(files[0].lines[0]).value, files[0], 1, g); }
      ExpectedBad(files[1..], ExpectFile(files[0], g).value);
    }
  }

  /** Importer and verifier read the same exports, and rebuild the same tables, column types, rows, labels
      and failures, exactly when the importer refused no row for what its fields hold. */
  lemma BuildersAgree(files: seq<CsvFile>)
    ensures BuildPlan(files, FRESH).Ok? <==> Expected(files).Ok?
    ensures BuildPlan(files, FRESH).Ok? ==>
              (Expected(files).value == GraphOf(BuildPlan(files, FRESH).value)
               <==> OnlyBadLines(BuildPlan(files, FRESH).value.failed))
  {
    var plan := EmptyPlan(map[]);
    assert GraphOf(plan) == EMPTY_GRAPH;
    SameErrors(files, plan, EMPTY_GRAPH);
    if BuildPlan(files, FRESH).Ok? {
      ExpectedBad(files, EMPTY_GRAPH);
      if OnlyBadLines(BuildPlan(files, FRESH).value.failed) { BuildAgrees(files, plan); }
    }
  }
}
