/** Resuming an import: runs that each skip the files an earlier run completed. */
module Neo4jResume {
  import opened Wrappers
  import opened Text
  import opened Identifiers
  import opened Neo4jCsv
  import opened Neo4jImport

  // ----- what every plan keeps -----

  ghost predicate ColumnsOk(columns: Columns) {
    forall c :: c in columns ==> columns[c].name == c
  }

  ghost predicate TableOk(name: string, t: Table) {
    && t.name == name
    && ColumnsOk(t.columns)
    && ID in t.columns && t.columns[ID].dataType == BIGINT
    && forall i :: 0 <= i < |t.rows| ==> t.rows[i].Keys <= t.columns.Keys
  }

  ghost predicate RelOk(name: string, t: RelTable) {
    && t.name == name
    && ColumnsOk(t.columns)
    && SOURCE_ID in t.columns && t.columns[SOURCE_ID].dataType == BIGINT
    && TARGET_ID in t.columns && t.columns[TARGET_ID].dataType == BIGINT
    && forall i :: 0 <= i < |t.rows| ==> t.rows[i].Keys <= t.columns.Keys
  }

  ghost predicate PlanOk(plan: Plan) {
    && (forall k :: k in plan.nodes ==> TableOk(k, plan.nodes[k]))
    && (forall k :: k in plan.rels ==> RelOk(k, plan.rels[k]))
  }

  lemma {:induction false} CollectKeeps(h: Header, fields: seq<string>, i: nat, columns: Columns, row: Row)
    requires |fields| == |h.columns| && i <= |fields|
    requires ColumnsOk(columns) && row.Keys <= columns.Keys
    ensures var (columns', row') := Collect(h, fields, i, columns, row);
            && ColumnsOk(columns') && row'.Keys <= columns'.Keys
            && columns.Keys <= columns'.Keys && (forall c :: c in columns ==> columns'[c] == columns[c])
    decreases |fields| - i
  {
    if i < |fields| {
      if IsMeta(h.columns[i]) {
        CollectKeeps(h, fields, i + 1, columns, row);
      } else {
        var col := ColumnOf(h.columns[i]);
        CollectKeeps(h, fields, i + 1, OrInsert(columns, col), row[col.name := fields[i]]);
      }
    }
  }

  ghost predicate NodesOk(nodes: map<string, Table>) {
    forall k :: k in nodes ==> TableOk(k, nodes[k])
  }

  lemma PutNodeKeeps(nodes: map<string, Table>, name: string, id: string, h: Header, fields: seq<string>)
    requires |fields| == |h.columns| && NodesOk(nodes)
    ensures NodesOk(PutNode(nodes, name, id, h, fields))
  {
    var t := NodeTable(nodes, name);
    assert TableOk(name, t);
    CollectKeeps(h, fields, 0, t.columns, map[ID := id]);
  }

  lemma {:induction false} PutNodesKeeps(nodes: map<string, Table>, names: seq<string>, id: string, h: Header,
                                         fields: seq<string>)
    requires |fields| == |h.columns| && NodesOk(nodes)
    ensures NodesOk(PutNodes(nodes, names, id, h, fields))
    decreases |names|
  {
    if names != [] {
      PutNodeKeeps(nodes, names[0], id, h, fields);
      PutNodesKeeps(PutNode(nodes, names[0], id, h, fields), names[1..], id, h, fields);
    }
  }

  lemma PutRelKeeps(plan: Plan, name: string, source: string, target: string, h: Header, fields: seq<string>)
    requires |fields| == |h.columns| && PlanOk(plan)
    ensures PlanOk(PutRel(plan, name, source, target, h, fields))
  {
    var t := RelTableFor(plan, name, source, target);
    assert RelOk(name, t);
    CollectKeeps(h, fields, 0, t.columns, map[SOURCE_ID := source, TARGET_ID := target]);
  }

  lemma NodeRowKeeps(h: Header, fields: seq<string>, file: string, line: nat, plan: Plan)
    requires |fields| == |h.columns| && HeaderOk(h) && PlanOk(plan)
    ensures PlanOk(NodeRow(h, fields, file, line, plan))
  {
    if h.idAt.Some? {
      PutNodesKeeps(plan.nodes, RowLabels(h, fields), Trim(fields[h.idAt.value]), h, fields);
    }
  }

  lemma RelRowKeeps(h: Header, fields: seq<string>, file: string, line: nat, plan: Plan)
    requires |fields| == |h.columns| && HeaderOk(h) && PlanOk(plan)
    ensures PlanOk(RelRow(h, fields, file, line, plan))
  {
    if h.startAt.Some? && h.endAt.Some? && h.typeAt.Some? {
      PutRelKeeps(plan, Sanitize(Trim(fields[h.typeAt.value])),
                  Trim(fields[h.startAt.value]), Trim(fields[h.endAt.value]), h, fields);
    }
  }

  lemma ScanLineKeeps(h: Header, text: string, file: string, line: nat, plan: Plan)
    requires HeaderOk(h) && PlanOk(plan)
    ensures PlanOk(ScanLine(h, text, file, line, plan))
  {
    match ReadLine(h, text)
    case Skip =>
    case Bad(_) =>
    case Good(fields) =>
      NodeRowKeeps(h, fields, file, line, plan);
      RelRowKeeps(h, fields, file, line, plan);
  }

  lemma {:induction false} ScanLinesKeeps(h: Header, file: CsvFile, i: nat, plan: Plan)
    requires HeaderOk(h) && i <= |file.lines| && PlanOk(plan)
    ensures PlanOk(ScanLines(h, file, i, plan))
    decreases |file.lines| - i
  {
    if i < |file.lines| {
      ScanLineKeeps(h, file.lines[i], file.name, i + 1, plan);
      ScanLinesKeeps(h, file, i + 1, ScanLine(h, file.lines[i], file.name, i + 1, plan));
    }
  }

  lemma {:induction false} BuildKeeps(files: seq<CsvFile>, completed: set<string>, plan: Plan)
    requires PlanOk(plan)
    ensures BuildFrom(files, completed, plan).Ok? ==> PlanOk(BuildFrom(files, completed, plan).value)
    decreases |files|
  {
    if files != [] {
      if files[0].name in completed {
        BuildKeeps(files[1..], completed, plan.(skipped := plan.skipped + [files[0].name]));
      } else if ScanFile(files[0], plan).Ok? {
        if files[0].lines != [] {
          ScanLinesKeeps(ParseHeader(files[0].lines[0]).value, files[0], 1, plan);
        }
        var next := ScanFile(files[0], plan).value;
        BuildKeeps(files[1..], completed, next.(processed := next.processed + [files[0].name]));
      }
    }
  }

  // ----- one run after another, seen as one -----

  /** Columns of a table seen by two runs: the first run's types win. */
  function FirstWins(a: Columns, b: Columns): Columns { b + a }

  function MergeTable(a: map<string, Table>, b: map<string, Table>, k: string): Table
    requires k in a || k in b
  {
    if k !in b then a[k]
    else if k !in a then b[k]
    else Table(a[k].name, FirstWins(a[k].columns, b[k].columns), a[k].rows + b[k].rows)
  }

  function MergeNodes(a: map<string, Table>, b: map<string, Table>): map<string, Table> {
    map k | k in a.Keys + b.Keys :: MergeTable(a, b, k)
  }

  function MergeRel(a: map<string, RelTable>, b: map<string, RelTable>, k: string): RelTable
    requires k in a || k in b
  {
    if k !in b then a[k]
    else if k !in a then b[k]
    else RelTable(a[k].name, a[k].source, a[k].target, FirstWins(a[k].columns, b[k].columns), a[k].rows + b[k].rows)
  }

  function MergeRels(a: map<string, RelTable>, b: map<string, RelTable>): map<string, RelTable> {
    map k | k in a.Keys + b.Keys :: MergeRel(a, b, k)
  }

  /** The plan of run a followed by run b, b having started from a's labels. */
  function Merge(a: Plan, b: Plan): Plan {
    Plan(MergeNodes(a.nodes, b.nodes), MergeRels(a.rels, b.rels), b.labels,
         a.failed + b.failed, a.processed + b.processed, a.skipped)
  }

  lemma OrInsertMerges(a: Columns, b: Columns, col: SqlColumn)
    ensures OrInsert(FirstWins(a, b), col) == FirstWins(a, OrInsert(b, col))
  {
  }

  lemma {:induction false} CollectMerges(h: Header, fields: seq<string>, i: nat, a: Columns, b: Columns, row: Row)
    requires |fields| == |h.columns| && i <= |fields|
    ensures var (merged, row') := Collect(h, fields, i, FirstWins(a, b), row);
            Collect(h, fields, i, b, row).1 == row' && merged == FirstWins(a, Collect(h, fields, i, b, row).0)
    decreases |fields| - i
  {
    if i < |fields| {
      if IsMeta(h.columns[i]) {
        CollectMerges(h, fields, i + 1, a, b, row);
      } else {
        var col := ColumnOf(h.columns[i]);
        OrInsertMerges(a, b, col);
        CollectMerges(h, fields, i + 1, a, OrInsert(b, col), row[col.name := fields[i]]);
      }
    }
  }

  function Joined(a: Table, b: Table): Table { Table(a.name, FirstWins(a.columns, b.columns), a.rows + b.rows) }

  lemma MergeNodesPut(a: map<string, Table>, b: map<string, Table>, name: string, t: Table)
    ensures MergeNodes(a, b[name := t]) == MergeNodes(a, b)[name := if name in a then Joined(a[name], t) else t]
  {
  }

  lemma MergedNodeTable(a: map<string, Table>, b: map<string, Table>, name: string)
    requires NodesOk(a)
    ensures NodeTable(MergeNodes(a, b), name) ==
            if name in a then Joined(a[name], NodeTable(b, name)) else NodeTable(b, name)
  {
    if name in a && name !in b {
      assert TableOk(name, a[name]);
      assert FirstWins(a[name].columns, NodeColumns()) == a[name].columns;
      assert a[name].rows + [] == a[name].rows;
    }
  }

  lemma PutNodeMerges(a: map<string, Table>, b: map<string, Table>, name: string, id: string, h: Header,
                      fields: seq<string>)
    requires |fields| == |h.columns| && NodesOk(a)
    ensures PutNode(MergeNodes(a, b), name, id, h, fields) == MergeNodes(a, PutNode(b, name, id, h, fields))
  {
    var tb := NodeTable(b, name);
    var (columns, row) := Collect(h, fields, 0, tb.columns, map[ID := id]);
    MergedNodeTable(a, b, name);
    MergeNodesPut(a, b, name, Table(tb.name, columns, tb.rows + [row]));
    if name in a {
      CollectMerges(h, fields, 0, a[name].columns, tb.columns, map[ID := id]);
      assert a[name].rows + tb.rows + [row] == a[name].rows + (tb.rows + [row]);
    }
  }

  lemma {:induction false} PutNodesMerges(
    a: map<string, Table>, b: map<string, Table>, names: seq<string>, id: string, h: Header, fields: seq<string>)
    requires |fields| == |h.columns| && NodesOk(a)
    ensures PutNodes(MergeNodes(a, b), names, id, h, fields) == MergeNodes(a, PutNodes(b, names, id, h, fields))
    decreases |names|
  {
    if names != [] {
      PutNodeMerges(a, b, names[0], id, h, fields);
      PutNodesMerges(a, PutNode(b, names[0], id, h, fields), names[1..], id, h, fields);
    }
  }

  function JoinedRel(a: RelTable, b: RelTable): RelTable {
    RelTable(a.name, a.source, a.target, FirstWins(a.columns, b.columns), a.rows + b.rows)
  }

  lemma MergeRelsPut(a: map<string, RelTable>, b: map<string, RelTable>, name: string, t: RelTable)
    ensures MergeRels(a, b[name := t]) == MergeRels(a, b)[name := if name in a then JoinedRel(a[name], t) else t]
  {
  }

  lemma MergedRelTable(a: Plan, b: Plan, name: string, source: string, target: string)
    requires PlanOk(a)
    ensures RelTableFor(Merge(a, b), name, source, target) ==
            if name in a.rels then JoinedRel(a.rels[name], RelTableFor(b, name, source, target))
            else RelTableFor(b, name, source, target)
  {
    if name in a.rels && name !in b.rels {
      assert RelOk(name, a.rels[name]);
      assert FirstWins(a.rels[name].columns, RelColumns()) == a.rels[name].columns;
      assert a.rels[name].rows + [] == a.rels[name].rows;
    }
  }

  lemma PutRelMerges(a: Plan, b: Plan, name: string, source: string, target: string, h: Header, fields: seq<string>)
    requires |fields| == |h.columns| && PlanOk(a)
    ensures PutRel(Merge(a, b), name, source, target, h, fields) == Merge(a, PutRel(b, name, source, target, h, fields))
  {
    var tb, row0 := RelTableFor(b, name, source, target), map[SOURCE_ID := source, TARGET_ID := target];
    var (columns, row) := Collect(h, fields, 0, tb.columns, row0);
    MergedRelTable(a, b, name, source, target);
    MergeRelsPut(a.rels, b.rels, name, RelTable(tb.name, tb.source, tb.target, columns, tb.rows + [row]));
    if name in a.rels {
      CollectMerges(h, fields, 0, a.rels[name].columns, tb.columns, row0);
      assert a.rels[name].rows + tb.rows + [row] == a.rels[name].rows + (tb.rows + [row]);
    }
  }

  lemma FailMerges(a: Plan, b: Plan, file: string, line: nat, reason: Reason)
    ensures Fail(Merge(a, b), file, line, reason) == Merge(a, Fail(b, file, line, reason))
  {
    assert a.failed + b.failed + [FailedRow(file, line, reason)] ==
           a.failed + (b.failed + [FailedRow(file, line, reason)]);
  }

  lemma NodeRowMerges(h: Header, fields: seq<string>, file: string, line: nat, a: Plan, b: Plan)
    requires |fields| == |h.columns| && HeaderOk(h) && PlanOk(a)
    ensures NodeRow(h, fields, file, line, Merge(a, b)) == Merge(a, NodeRow(h, fields, file, line, b))
  {
    FailMerges(a, b, file, line, NoIdColumn);
    FailMerges(a, b, file, line, EmptyId);
    if h.idAt.Some? {
      PutNodesMerges(a.nodes, b.nodes, RowLabels(h, fields), Trim(fields[h.idAt.value]), h, fields);
    }
  }

  lemma RelRowMerges(h: Header, fields: seq<string>, file: string, line: nat, a: Plan, b: Plan)
    requires |fields| == |h.columns| && HeaderOk(h) && PlanOk(a)
    ensures RelRow(h, fields, file, line, Merge(a, b)) == Merge(a, RelRow(h, fields, file, line, b))
  {
    FailMerges(a, b, file, line, MissingColumn);
    FailMerges(a, b, file, line, EmptyEndpoint);
    if h.startAt.Some? && h.endAt.Some? && h.typeAt.Some? {
      PutRelMerges(a, b, Sanitize(Trim(fields[h.typeAt.value])),
                   Trim(fields[h.startAt.value]), Trim(fields[h.endAt.value]), h, fields);
    }
  }

  lemma ScanLineMerges(h: Header, text: string, file: string, line: nat, a: Plan, b: Plan)
    requires HeaderOk(h) && PlanOk(a)
    ensures ScanLine(h, text, file, line, Merge(a, b)) == Merge(a, ScanLine(h, text, file, line, b))
  {
    match ReadLine(h, text)
    case Skip =>
    case Bad(reason) => FailMerges(a, b, file, line, reason);
    case Good(fields) =>
      NodeRowMerges(h, fields, file, line, a, b);
      RelRowMerges(h, fields, file, line, a, b);
  }

  lemma {:induction false} ScanLinesMerges(h: Header, file: CsvFile, i: nat, a: Plan, b: Plan)
    requires HeaderOk(h) && i <= |file.lines| && PlanOk(a)
    ensures ScanLines(h, file, i, Merge(a, b)) == Merge(a, ScanLines(h, file, i, b))
    decreases |file.lines| - i
  {
    if i < |file.lines| {
      ScanLineMerges(h, file.lines[i], file.name, i + 1, a, b);
      ScanLinesMerges(h, file, i + 1, a, ScanLine(h, file.lines[i], file.name, i + 1, b));
    }
  }

  /** Scanning a file on top of an earlier run's plan is scanning it afresh and merging. */
  lemma ScanFileMerges(file: CsvFile, a: Plan, b: Plan)
    requires PlanOk(a)
    ensures ScanFile(file, Merge(a, b)).Ok? <==> ScanFile(file, b).Ok?
    ensures ScanFile(file, b).Ok? ==> ScanFile(file, Merge(a, b)).value == Merge(a, ScanFile(file, b).value)
  {
    if file.lines != [] && ParseHeader(file.lines[0]).Ok? {
      ScanLinesMerges(ParseHeader(file.lines[0]).value, file, 1, a, b);
    }
  }

  // ----- files in sequence -----

  function FileNames(files: seq<CsvFile>): (r: seq<string>)
    ensures |r| == |files|
    ensures forall i :: 0 <= i < |r| ==> r[i] == files[i].name
  {
    if files == [] then [] else [files[0].name] + FileNames(files[1..])
  }

  lemma {:induction false} BuildAppend(a: seq<CsvFile>, b: seq<CsvFile>, completed: set<string>, plan: Plan)
    ensures BuildFrom(a + b, completed, plan) ==
            if BuildFrom(a, completed, plan).Ok? then BuildFrom(b, completed, BuildFrom(a, completed, plan).value)
            else Err
    decreases |a|
  {
    if a == [] {
      assert a + b == b;
    } else {
      assert (a + b)[0] == a[0] && (a + b)[1..] == a[1..] + b;
      if a[0].name in completed {
        BuildAppend(a[1..], b, completed, plan.(skipped := plan.skipped + [a[0].name]));
      } else if ScanFile(a[0], plan).Ok? {
        var next := ScanFile(a[0], plan).value;
        BuildAppend(a[1..], b, completed, next.(processed := next.processed + [a[0].name]));
      }
    }
  }

  /** Completed files are skipped without a look at their contents. */
  lemma {:induction false} BuildSkips(files: seq<CsvFile>, completed: set<string>, plan: Plan)
    requires forall i :: 0 <= i < |files| ==> files[i].name in completed
    ensures BuildFrom(files, completed, plan) == Ok(plan.(skipped := plan.skipped + FileNames(files)))
    decreases |files|
  {
    SkipsOneMore(plan.skipped, files);
    if files != [] {
      BuildSkips(files[1..], completed, plan.(skipped := plan.skipped + [files[0].name]));
    }
  }

  lemma SkipsOneMore(names: seq<string>, files: seq<CsvFile>)
    ensures files == [] ==> names + FileNames(files) == names
    ensures files != [] ==> names + [files[0].name] + FileNames(files[1..]) == names + FileNames(files)
  {
  }

  lemma ScanFileFrame(file: CsvFile, plan: Plan)
    ensures ScanFile(file, plan).Ok? ==>
              && ScanFile(file, plan).value.processed == plan.processed
              && ScanFile(file, plan).value.skipped == plan.skipped
  {
    if file.lines != [] && ParseHeader(file.lines[0]).Ok? {
      ScanLinesFrame(ParseHeader(file.lines[0]).value, file, 1, plan);
    }
  }

  ghost predicate Framed(plan: Plan, next: Plan) {
    next.processed == plan.processed && next.skipped == plan.skipped && plan.labels.Keys <= next.labels.Keys
  }

  lemma NodeRowFrame(h: Header, fields: seq<string>, file: string, line: nat, plan: Plan)
    requires |fields| == |h.columns| && HeaderOk(h)
    ensures Framed(plan, NodeRow(h, fields, file, line, plan))
  {
  }

  lemma RelRowFrame(h: Header, fields: seq<string>, file: string, line: nat, plan: Plan)
    requires |fields| == |h.columns| && HeaderOk(h)
    ensures Framed(plan, RelRow(h, fields, file, line, plan))
  {
  }

  lemma ScanLineFrame(h: Header, text: string, file: string, line: nat, plan: Plan)
    requires HeaderOk(h)
    ensures Framed(plan, ScanLine(h, text, file, line, plan))
  {
    match ReadLine(h, text)
    case Skip =>
    case Bad(_) =>
    case Good(fields) =>
      NodeRowFrame(h, fields, file, line, plan);
      RelRowFrame(h, fields, file, line, plan);
  }

  lemma {:induction false} ScanLinesFrame(h: Header, file: CsvFile, i: nat, plan: Plan)
    requires HeaderOk(h) && i <= |file.lines|
    ensures Framed(plan, ScanLines(h, file, i, plan))
    decreases |file.lines| - i
  {
    if i < |file.lines| {
      var next := ScanLine(h, file.lines[i], file.name, i + 1, plan);
      ScanLineFrame(h, file.lines[i], file.name, i + 1, plan);
      ScanLinesFrame(h, file, i + 1, next);
    }
  }

  /** A file is processed exactly when it was not completed. */
  lemma {:induction false} BuildProcesses(files: seq<CsvFile>, completed: set<string>, plan: Plan)
    ensures var r := BuildFrom(files, completed, plan);
            r.Ok? ==> Names(r.value.processed) == Names(plan.processed) + (Names(FileNames(files)) - completed)
    decreases |files|
  {
    if files != [] {
      if files[0].name in completed {
        BuildProcesses(files[1..], completed, plan.(skipped := plan.skipped + [files[0].name]));
      } else if ScanFile(files[0], plan).Ok? {
        ScanFileFrame(files[0], plan);
        var next := ScanFile(files[0], plan).value;
        BuildProcesses(files[1..], completed, next.(processed := next.processed + [files[0].name]));
      }
    }
  }

  lemma {:induction false} BuildMerges(files: seq<CsvFile>, completed: set<string>, a: Plan, b: Plan)
    requires PlanOk(a) && forall i :: 0 <= i < |files| ==> files[i].name !in completed
    ensures BuildFrom(files, {}, Merge(a, b)).Ok? <==> BuildFrom(files, completed, b).Ok?
    ensures BuildFrom(files, completed, b).Ok? ==>
              BuildFrom(files, {}, Merge(a, b)).value == Merge(a, BuildFrom(files, completed, b).value)
    decreases |files|
  {
    if files != [] {
      ScanFileMerges(files[0], a, b);
      if ScanFile(files[0], b).Ok? {
        var next := ScanFile(files[0], b).value;
        var next' := next.(processed := next.processed + [files[0].name]);
        assert a.processed + next.processed + [files[0].name] == a.processed + next'.processed;
        BuildMerges(files[1..], completed, a, next');
      }
    }
  }

  // ----- the results -----

  lemma MergeNothing(a: Plan, skipped: seq<string>)
    ensures Merge(a, EmptyPlan(a.labels).(skipped := skipped)) == a
  {
    assert a.failed + [] == a.failed && a.processed + [] == a.processed;
    assert MergeNodes(a.nodes, map[]) == a.nodes && MergeRels(a.rels, map[]) == a.rels;
  }

  /** After a successful run over the first files, a resumed run skips them and starts from their
      labels. */
  lemma ResumedStart(a: seq<CsvFile>, b: seq<CsvFile>)
    requires Succeeds(a, FRESH)
    requires forall i, j :: 0 <= i < |a| && 0 <= j < |b| ==> a[i].name != b[j].name
    ensures var first, state := BuildPlan(a, FRESH).value, RunState(a, FRESH);
            && state == ImportState(Names(FileNames(a)), first.labels)
            && (forall j :: 0 <= j < |b| ==> b[j].name !in state.completed)
            && BuildPlan(a + b, state) ==
               BuildFrom(b, state.completed, EmptyPlan(first.labels).(skipped := FileNames(a)))
            && BuildPlan(a + b, FRESH) == BuildFrom(b, {}, first)
  {
    var first, state := BuildPlan(a, FRESH).value, RunState(a, FRESH);
    BuildProcesses(a, {}, EmptyPlan(map[]));
    assert map[] + first.labels == first.labels;
    assert state.completed == Names(FileNames(a));
    forall i | 0 <= i < |a| ensures a[i].name in state.completed { assert FileNames(a)[i] == a[i].name; }
    BuildSkips(a, state.completed, EmptyPlan(state.labels));
    assert [] + FileNames(a) == FileNames(a);
    BuildAppend(a, b, state.completed, EmptyPlan(state.labels));
    BuildAppend(a, b, {}, EmptyPlan(map[]));
  }

  /** Resuming after the first files gives, run by run and merged, the plan of a single run over all
      files: rows in order, column types and edge labels of whichever run met them first, the same
      labels of every node id, the same failed rows. */
  lemma ResumeEqualsOneShot(a: seq<CsvFile>, b: seq<CsvFile>)
    requires Succeeds(a, FRESH)
    requires forall i, j :: 0 <= i < |a| && 0 <= j < |b| ==> a[i].name != b[j].name
    ensures var state := RunState(a, FRESH);
            && (BuildPlan(a + b, state).Ok? <==> BuildPlan(a + b, FRESH).Ok?)
            && (BuildPlan(a + b, state).Ok? ==>
                  BuildPlan(a + b, FRESH).value == Merge(BuildPlan(a, FRESH).value, BuildPlan(a + b, state).value))
            && (Succeeds(a + b, state) <==> Succeeds(a + b, FRESH))
  {
    var first, state := BuildPlan(a, FRESH).value, RunState(a, FRESH);
    ResumedStart(a, b);
    BuildKeeps(a, {}, EmptyPlan(map[]));
    MergeNothing(first, FileNames(a));
    BuildMerges(b, state.completed, first, EmptyPlan(first.labels).(skipped := FileNames(a)));
  }

  lemma {:induction false} BuildLabels(files: seq<CsvFile>, completed: set<string>, plan: Plan)
    ensures BuildFrom(files, completed, plan).Ok? ==>
              plan.labels.Keys <= BuildFrom(files, completed, plan).value.labels.Keys
    decreases |files|
  {
    if files != [] {
      if files[0].name in completed {
        BuildLabels(files[1..], completed, plan.(skipped := plan.skipped + [files[0].name]));
      } else if ScanFile(files[0], plan).Ok? {
        if files[0].lines != [] {
          ScanLinesFrame(ParseHeader(files[0].lines[0]).value, files[0], 1, plan);
        }
        var next := ScanFile(files[0], plan).value;
        BuildLabels(files[1..], completed, next.(processed := next.processed + [files[0].name]));
      }
    }
  }

  lemma NamesAppend(a: seq<CsvFile>, b: seq<CsvFile>)
    ensures Names(FileNames(a + b)) == Names(FileNames(a)) + Names(FileNames(b))
  {
    assert FileNames(a + b) == FileNames(a) + FileNames(b);
  }

  lemma ResumeCompletes(a: seq<CsvFile>, b: seq<CsvFile>)
    requires Succeeds(a, FRESH) && Succeeds(a + b, FRESH) && Succeeds(a + b, RunState(a, FRESH))
    ensures var state := RunState(a, FRESH);
            state.completed + Names(BuildPlan(a + b, state).value.processed) ==
            FRESH.completed + Names(BuildPlan(a + b, FRESH).value.processed)
  {
    var state := RunState(a, FRESH);
    BuildProcesses(a, {}, EmptyPlan(map[]));
    BuildProcesses(a + b, state.completed, EmptyPlan(state.labels));
    BuildProcesses(a + b, {}, EmptyPlan(map[]));
    NamesAppend(a, b);
  }

  /** Whether in one run or two, the same state is saved in the end. */
  lemma ResumeSavesSameState(a: seq<CsvFile>, b: seq<CsvFile>)
    requires Succeeds(a, FRESH) && Succeeds(a + b, FRESH)
    requires forall i, j :: 0 <= i < |a| && 0 <= j < |b| ==> a[i].name != b[j].name
    ensures RunState(a + b, RunState(a, FRESH)) == RunState(a + b, FRESH)
  {
    var state := RunState(a, FRESH);
    ResumeEqualsOneShot(a, b);
    var second, once := BuildPlan(a + b, state).value, BuildPlan(a + b, FRESH).value;
    BuildLabels(a + b, state.completed, EmptyPlan(state.labels));
    assert state.labels + second.labels == second.labels == map[] + once.labels;
    ResumeCompletes(a, b);
  }

  /** The states after each of a series of runs, whatever each finds in the export directory. */
  function StateAfter(state: ImportState, dirs: seq<seq<CsvFile>>): ImportState
    decreases |dirs|
  {
    if dirs == [] then state else StateAfter(RunState(dirs[0], state), dirs[1..])
  }

  lemma {:induction false} CompletedGrows(state: ImportState, dirs: seq<seq<CsvFile>>)
    ensures state.completed <= StateAfter(state, dirs).completed
    decreases |dirs|
  {
    if dirs != [] { CompletedGrows(RunState(dirs[0], state), dirs[1..]); }
  }

  /** No file is planned by two successful runs, with any runs, failed ones included, between. */
  lemma NoFileTwice(state: ImportState, early: seq<CsvFile>, between: seq<seq<CsvFile>>, late: seq<CsvFile>)
    requires Succeeds(early, state)
    requires BuildPlan(late, StateAfter(RunState(early, state), between)).Ok?
    ensures Names(BuildPlan(early, state).value.processed)
         !! Names(BuildPlan(late, StateAfter(RunState(early, state), between)).value.processed)
  {
    var mid := StateAfter(RunState(early, state), between);
    CompletedGrows(RunState(early, state), between);
    BuildProcesses(late, mid.completed, EmptyPlan(mid.labels));
  }
}
