/** The importer's plan (xtask/src/neo4j_import.rs).

    The functions say what each row, file and run does to a plan; the class ImportPlan does it in
    place, as the source does, and each method is proved against its function. */
module Neo4jImport {
  import opened Wrappers
  import opened Text
  import opened Identifiers
  import opened Neo4jCsv

  const ID: string := "id"
  const SOURCE_ID: string := "source_id"
  const TARGET_ID: string := "target_id"

  type Columns = map<string, SqlColumn>

  datatype Table = Table(name: string, columns: Columns, rows: seq<Row>)

  datatype RelTable = RelTable(name: string, source: string, target: string, columns: Columns, rows: seq<Row>)

  datatype FailedRow = FailedRow(file: string, line: nat, reason: Reason)

  datatype Plan = Plan(
    nodes: map<string, Table>,
    rels: map<string, RelTable>,
    labels: map<string, seq<string>>,
    failed: seq<FailedRow>,
    processed: seq<string>,
    skipped: seq<string>)

  function EmptyPlan(labels: map<string, seq<string>>): Plan { Plan(map[], map[], labels, [], [], []) }

  // ----- properties -----

  /** `collect_properties` from column i on: a new column keeps the first type seen for its name, and
      the row takes the last field of that name. */
  function Collect(h: Header, fields: seq<string>, i: nat, columns: Columns, row: Row): (Columns, Row)
    requires |fields| == |h.columns| && i <= |fields|
    decreases |fields| - i
  {
    if i == |fields| then (columns, row)
    else if IsMeta(h.columns[i]) then Collect(h, fields, i + 1, columns, row)
    else
      var col := ColumnOf(h.columns[i]);
      Collect(h, fields, i + 1, OrInsert(columns, col), row[col.name := fields[i]])
  }

  function OrInsert(columns: Columns, col: SqlColumn): Columns {
    if col.name in columns then columns else columns[col.name := col]
  }

  method CollectProperties(h: Header, fields: seq<string>, columns0: Columns, row0: Row)
    returns (columns: Columns, row: Row)
    requires |fields| == |h.columns|
    ensures (columns, row) == Collect(h, fields, 0, columns0, row0)
    ensures columns0.Keys <= columns.Keys && forall k :: k in columns0 ==> columns[k] == columns0[k]
  {
    columns, row := columns0, row0;
    for i := 0 to |fields|
      invariant Collect(h, fields, i, columns, row) == Collect(h, fields, 0, columns0, row0)
      invariant columns0.Keys <= columns.Keys && forall k :: k in columns0 ==> columns[k] == columns0[k]
    {
      if IsMeta(h.columns[i]) {
        continue;
      }
      var col := ColumnOf(h.columns[i]);
      if col.name !in columns {
        columns := columns[col.name := col];
      }
      row := row[col.name := fields[i]];
    }
  }

  // ----- rows -----

  function NodeColumns(): Columns { map[ID := SqlColumn(ID, BIGINT)] }

  function RelColumns(): Columns {
    map[SOURCE_ID := SqlColumn(SOURCE_ID, BIGINT), TARGET_ID := SqlColumn(TARGET_ID, BIGINT)]
  }

  function NodeTable(nodes: map<string, Table>, name: string): Table {
    if name in nodes then nodes[name] else Table(name, NodeColumns(), [])
  }

  function PutNode(nodes: map<string, Table>, name: string, id: string, h: Header, fields: seq<string>):
    map<string, Table>
    requires |fields| == |h.columns|
  {
    var t := NodeTable(nodes, name);
    var (columns, row) := Collect(h, fields, 0, t.columns, map[ID := id]);
    nodes[name := Table(t.name, columns, t.rows + [row])]
  }

  function PutNodes(nodes: map<string, Table>, names: seq<string>, id: string, h: Header, fields: seq<string>):
    map<string, Table>
    requires |fields| == |h.columns|
    decreases |names|
  {
    if names == [] then nodes else PutNodes(PutNode(nodes, names[0], id, h, fields), names[1..], id, h, fields)
  }

  function Fail(plan: Plan, file: string, line: nat, reason: Reason): Plan {
    plan.(failed := plan.failed + [FailedRow(file, line, reason)])
  }

  function NodeRow(h: Header, fields: seq<string>, file: string, line: nat, plan: Plan): Plan
    requires |fields| == |h.columns| && HeaderOk(h)
  {
    if h.idAt.None? then Fail(plan, file, line, NoIdColumn)
    else
      var id := Trim(fields[h.idAt.value]);
      if id == [] then Fail(plan, file, line, EmptyId)
      else
        var names := RowLabels(h, fields);
        plan.(labels := plan.labels[id := names], nodes := PutNodes(plan.nodes, names, id, h, fields))
  }

  function RelTableFor(plan: Plan, name: string, source: string, target: string): RelTable {
    if name in plan.rels then plan.rels[name]
    else RelTable(name, FirstLabel(plan.labels, source), FirstLabel(plan.labels, target), RelColumns(), [])
  }

  function PutRel(plan: Plan, name: string, source: string, target: string, h: Header, fields: seq<string>): Plan
    requires |fields| == |h.columns|
  {
    var t := RelTableFor(plan, name, source, target);
    var (columns, row) := Collect(h, fields, 0, t.columns, map[SOURCE_ID := source, TARGET_ID := target]);
    plan.(rels := plan.rels[name := RelTable(t.name, t.source, t.target, columns, t.rows + [row])])
  }

  function RelRow(h: Header, fields: seq<string>, file: string, line: nat, plan: Plan): Plan
    requires |fields| == |h.columns| && HeaderOk(h)
  {
    if h.startAt.None? || h.endAt.None? || h.typeAt.None? then Fail(plan, file, line, MissingColumn)
    else
      var source, target, kind :=
        Trim(fields[h.startAt.value]), Trim(fields[h.endAt.value]), Trim(fields[h.typeAt.value]);
      if source == [] || target == [] || kind == [] then Fail(plan, file, line, EmptyEndpoint)
      else PutRel(plan, Sanitize(kind), source, target, h, fields)
  }

  function ScanLine(h: Header, text: string, file: string, line: nat, plan: Plan): Plan
    requires HeaderOk(h)
  {
    match ReadLine(h, text)
    case Skip => plan
    case Bad(reason) => Fail(plan, file, line, reason)
    case Good(fields) =>
      if IsRelationship(h) then RelRow(h, fields, file, line, plan) else NodeRow(h, fields, file, line, plan)
  }

  /** Lines from number i on; the header is line 0 and is reported as line 1. */
  function ScanLines(h: Header, file: CsvFile, i: nat, plan: Plan): Plan
    requires HeaderOk(h) && i <= |file.lines|
    decreases |file.lines| - i
  {
    if i == |file.lines| then plan
    else ScanLines(h, file, i + 1, ScanLine(h, file.lines[i], file.name, i + 1, plan))
  }

  function ScanFile(file: CsvFile, plan: Plan): Result<Plan> {
    if file.lines == [] then Ok(plan)
    else
      match ParseHeader(file.lines[0])
      case Err => Err
      case Ok(h) => Ok(ScanLines(h, file, 1, plan))
  }

  // ----- runs -----

  /** What a finished run leaves behind. */
  datatype ImportState = ImportState(completed: set<string>, labels: map<string, seq<string>>)

  const FRESH := ImportState({}, map[])

  function BuildFrom(files: seq<CsvFile>, completed: set<string>, plan: Plan): Result<Plan>
    decreases |files|
  {
    if files == [] then Ok(plan)
    else if files[0].name in completed then
      BuildFrom(files[1..], completed, plan.(skipped := plan.skipped + [files[0].name]))
    else
      match ScanFile(files[0], plan)
      case Err => Err
      case Ok(next) => BuildFrom(files[1..], completed, next.(processed := next.processed + [files[0].name]))
  }

  function BuildPlan(files: seq<CsvFile>, state: ImportState): Result<Plan> {
    BuildFrom(files, state.completed, EmptyPlan(state.labels))
  }

  /** A run succeeds when every file could be read and no row failed. */
  predicate Succeeds(files: seq<CsvFile>, state: ImportState) {
    BuildPlan(files, state).Ok? && BuildPlan(files, state).value.failed == []
  }

  function Names(files: seq<string>): set<string> { set f | f in files }

  function RunState(files: seq<CsvFile>, state: ImportState): ImportState {
    if Succeeds(files, state) then
      var plan := BuildPlan(files, state).value;
      ImportState(state.completed + Names(plan.processed), state.labels + plan.labels)
    else state
  }

  // ----- the objects -----

  class ImportPlan {
    var nodes: map<string, Table>
    var rels: map<string, RelTable>
    var labels: map<string, seq<string>>
    var failed: seq<FailedRow>
    var processed: seq<string>
    var skipped: seq<string>

    ghost function Value(): Plan
      reads this
    {
      Plan(nodes, rels, labels, failed, processed, skipped)
    }

    constructor (known: map<string, seq<string>>)
      ensures Value() == EmptyPlan(known)
    {
      nodes, rels, labels, failed, processed, skipped := map[], map[], known, [], [], [];
    }

    method FailRow(file: string, line: nat, reason: Reason)
      modifies this
      ensures Value() == Fail(old(Value()), file, line, reason)
    {
      failed := failed + [FailedRow(file, line, reason)];
    }

    method ScanNodeRow(h: Header, fields: seq<string>, file: string, line: nat)
      requires |fields| == |h.columns| && HeaderOk(h)
      modifies this
      ensures Value() == NodeRow(h, fields, file, line, old(Value()))
    {
      if h.idAt.None? {
        FailRow(file, line, NoIdColumn);
        return;
      }
      var id := Trim(fields[h.idAt.value]);
      if id == [] {
        FailRow(file, line, EmptyId);
        return;
      }
      var names := RowLabels(h, fields);
      labels := labels[id := names];
      for i := 0 to |names|
        invariant PutNodes(nodes, names[i..], id, h, fields) == PutNodes(old(nodes), names, id, h, fields)
        invariant Value() == old(Value()).(labels := old(labels)[id := names], nodes := nodes)
      {
        assert names[i..][0] == names[i] && names[i..][1..] == names[i + 1..];
        var table := NodeTable(nodes, names[i]);
        var columns, row := CollectProperties(h, fields, table.columns, map[ID := id]);
        nodes := nodes[names[i] := Table(table.name, columns, table.rows + [row])];
      }
    }

    method ScanRelationshipRow(h: Header, fields: seq<string>, file: string, line: nat)
      requires |fields| == |h.columns| && HeaderOk(h)
      modifies this
      ensures Value() == RelRow(h, fields, file, line, old(Value()))
    {
      if h.startAt.None? || h.endAt.None? || h.typeAt.None? {
        FailRow(file, line, MissingColumn);
        return;
      }
      var source, target := Trim(fields[h.startAt.value]), Trim(fields[h.endAt.value]);
      var kind := Trim(fields[h.typeAt.value]);
      if source == [] || target == [] || kind == [] {
        FailRow(file, line, EmptyEndpoint);
        return;
      }
      var name := SanitizeIdent(kind);
      var table := if name in rels then rels[name]
                   else RelTable(name, FirstLabel(labels, source), FirstLabel(labels, target), RelColumns(), []);
      var columns, row := CollectProperties(h, fields, table.columns, map[SOURCE_ID := source, TARGET_ID := target]);
      rels := rels[name := RelTable(table.name, table.source, table.target, columns, table.rows + [row])];
    }

    /** A header that cannot be read ends the run before anything is planned from the file. */
    method ScanCsv(file: CsvFile) returns (r: Result<()>)
      modifies this
      ensures r.Ok? <==> ScanFile(file, old(Value())).Ok?
      ensures r.Ok? ==> Value() == ScanFile(file, old(Value())).value
      ensures r.Err? ==> Value() == old(Value())
    {
      if file.lines == [] {
        return Ok(());
      }
      var header := ReadHeader(file.lines[0]);
      if header.Err? {
        return Err;
      }
      var h := header.value;
      for i := 1 to |file.lines|
        invariant ScanLines(h, file, i, Value()) == ScanLines(h, file, 1, old(Value()))
      {
        var line := ReadLine(h, file.lines[i]);
        match line
        case Skip =>
        case Bad(reason) => FailRow(file.name, i + 1, reason);
        case Good(fields) =>
          if IsRelationship(h) {
            ScanRelationshipRow(h, fields, file.name, i + 1);
          } else {
            ScanNodeRow(h, fields, file.name, i + 1);
          }
      }
      return Ok(());
    }
  }

  method BuildImportPlan(files: seq<CsvFile>, state: ImportState) returns (r: Result<ImportPlan>)
    ensures r.Ok? <==> BuildPlan(files, state).Ok?
    ensures r.Ok? ==> fresh(r.value) && r.value.Value() == BuildPlan(files, state).value
  {
    var plan := new ImportPlan(state.labels);
    assert files[0..] == files;
    for i := 0 to |files|
      invariant BuildFrom(files[i..], state.completed, plan.Value()) == BuildPlan(files, state)
    {
      assert files[i..][0] == files[i] && files[i..][1..] == files[i + 1..];
      if files[i].name in state.completed {
        plan.skipped := plan.skipped + [files[i].name];
        continue;
      }
      var scanned := plan.ScanCsv(files[i]);
      if scanned.Err? {
        return Err;
      }
      plan.processed := plan.processed + [files[i].name];
    }
    return Ok(plan);
  }

  /** The importer across runs: its saved state. */
  class Importer {
    var state: ImportState

    constructor ()
      ensures state == FRESH
    {
      state := FRESH;
    }

    /** A run with an unreadable file or a failed row reports an error and saves nothing. */
    method Run(files: seq<CsvFile>) returns (r: Result<ImportPlan>)
      modifies this
      ensures r.Ok? <==> Succeeds(files, old(state))
      ensures r.Ok? ==> fresh(r.value) && r.value.Value() == BuildPlan(files, old(state)).value
      ensures state == RunState(files, old(state)) && (r.Err? ==> state == old(state))
    {
      var built := BuildImportPlan(files, state);
      if built.Err? {
        return Err;
      }
      var plan := built.value;
      if plan.failed != [] {
        return Err;
      }
      state := ImportState(state.completed + Names(plan.processed), state.labels + plan.labels);
      return Ok(plan);
    }
  }
}
