/** Running the whole script of a plan. */
module Neo4jPlanRun {
  import opened Wrappers
  import opened Ordering
  import opened Neo4jImport
  import opened Neo4jResume
  import opened SqlText
  import opened SqlParser
  import opened SqlScript
  import opened SqlEngine
  import opened Neo4jExecution
  import opened Neo4jUnits

  ghost predicate NodesReady(nodes: map<string, Table>) {
    forall k {:trigger NodeReady(k, nodes[k])} :: k in nodes ==> NodeReady(k, nodes[k])
  }

  ghost predicate RelsReady(rels: map<string, RelTable>) {
    forall k {:trigger RelReady(k, rels[k])} :: k in rels ==> RelReady(k, rels[k])
  }

  // ----- tables as units -----

  ghost function NodeUnit(name: string, t: Table): Unit
    requires NodeReady(name, t)
  {
    Unit(name, NodeTableLines(t), TableFilled(t.columns, t.rows), StoredTable(name, t.columns, t.rows), None)
  }

  ghost function RelUnit(name: string, t: RelTable): Unit
    requires RelReady(name, t)
  {
    Unit(name, RelTableLines(t), TableFilled(t.columns, t.rows), StoredTable(name, t.columns, t.rows),
         Some(EdgeInfo(name, t.source, t.target)))
  }

  lemma NodeUnitRuns(u: Unit, db: Db, name: string, t: Table)
    requires NodeReady(name, t) && u == NodeUnit(name, t) && ImportDb(db)
    ensures LinesOk(u.lines) && Run(u.lines, db) == (if UnitOk(u, db) then Ok(AddUnit(db, u)) else Err)
    ensures UnitOk(u, db) ==> ImportDb(AddUnit(db, u))
  {
    NodeRuns(db, name, t);
  }

  lemma NodeUnitWorks(name: string, t: Table)
    requires NodeReady(name, t)
    ensures Works(NodeUnit(name, t))
  {
    var u := NodeUnit(name, t);
    NodeUnitRuns(u, EMPTY_DB, name, t);
    forall db | ImportDb(db)
      ensures Run(u.lines, db) == (if UnitOk(u, db) then Ok(AddUnit(db, u)) else Err)
              && (UnitOk(u, db) ==> ImportDb(AddUnit(db, u)))
    {
      NodeUnitRuns(u, db, name, t);
    }
  }

  lemma RelUnitRuns(u: Unit, db: Db, name: string, t: RelTable)
    requires RelReady(name, t) && u == RelUnit(name, t) && ImportDb(db)
    ensures LinesOk(u.lines) && Run(u.lines, db) == (if UnitOk(u, db) then Ok(AddUnit(db, u)) else Err)
    ensures UnitOk(u, db) ==> ImportDb(AddUnit(db, u))
  {
    RelRuns(db, name, t);
  }

  lemma RelUnitWorks(name: string, t: RelTable)
    requires RelReady(name, t)
    ensures Works(RelUnit(name, t))
  {
    var u := RelUnit(name, t);
    RelUnitRuns(u, EMPTY_DB, name, t);
    forall db | ImportDb(db)
      ensures Run(u.lines, db) == (if UnitOk(u, db) then Ok(AddUnit(db, u)) else Err)
              && (UnitOk(u, db) ==> ImportDb(AddUnit(db, u)))
    {
      RelUnitRuns(u, db, name, t);
    }
  }

  ghost function NodeUnits(nodes: map<string, Table>, names: seq<string>): (r: seq<Unit>)
    requires NodesReady(nodes) && forall i :: 0 <= i < |names| ==> names[i] in nodes
    ensures |r| == |names| && AllNodes(r)
    ensures forall i :: 0 <= i < |r| ==>
              r[i].name == names[i] && r[i].filled == TableFilled(nodes[names[i]].columns, nodes[names[i]].rows)
  {
    seq(|names|, i requires 0 <= i < |names| =>
      assert NodeReady(names[i], nodes[names[i]]);
      NodeUnit(names[i], nodes[names[i]]))
  }

  ghost function RelUnits(rels: map<string, RelTable>, names: seq<string>): (r: seq<Unit>)
    requires RelsReady(rels) && forall i :: 0 <= i < |names| ==> names[i] in rels
    ensures |r| == |names| && AllEdges(r)
    ensures forall i :: 0 <= i < |r| ==>
              && r[i].name == names[i] && r[i].filled == TableFilled(rels[names[i]].columns, rels[names[i]].rows)
              && r[i].edge == Some(EdgeInfo(names[i], rels[names[i]].source, rels[names[i]].target))
  {
    seq(|names|, i requires 0 <= i < |names| =>
      assert RelReady(names[i], rels[names[i]]);
      RelUnit(names[i], rels[names[i]]))
  }

  lemma {:induction false} NodeUnitLines(nodes: map<string, Table>, names: seq<string>)
    requires NodesReady(nodes) && forall i :: 0 <= i < |names| ==> names[i] in nodes
    ensures UnitLines(NodeUnits(nodes, names)) == NodesLines(nodes, names)
    ensures AllWork(NodeUnits(nodes, names))
    decreases |names|
  {
    var units := NodeUnits(nodes, names);
    if names != [] {
      NodeUnitLines(nodes, names[1..]);
      assert units[1..] == NodeUnits(nodes, names[1..]);
    }
    forall i | 0 <= i < |units| ensures Works(units[i]) {
      assert NodeReady(names[i], nodes[names[i]]);
      NodeUnitWorks(names[i], nodes[names[i]]);
    }
  }

  lemma {:induction false} RelUnitLines(rels: map<string, RelTable>, names: seq<string>)
    requires RelsReady(rels) && forall i :: 0 <= i < |names| ==> names[i] in rels
    ensures UnitLines(RelUnits(rels, names)) == RelsLines(rels, names)
    ensures AllWork(RelUnits(rels, names))
    decreases |names|
  {
    var units := RelUnits(rels, names);
    if names != [] {
      RelUnitLines(rels, names[1..]);
      assert units[1..] == RelUnits(rels, names[1..]);
    }
    forall i | 0 <= i < |units| ensures Works(units[i]) {
      assert RelReady(names[i], rels[names[i]]);
      RelUnitWorks(names[i], rels[names[i]]);
    }
  }

  // ----- the plan -----

  ghost predicate PlanReady(plan: Plan) { NodesReady(plan.nodes) && RelsReady(plan.rels) }

  /** Every plan the importer builds is ready when its cells and names fit. */
  lemma FittingPlanIsReady(plan: Plan)
    requires PlanOk(plan) && PlanFits(plan)
    ensures PlanReady(plan)
  {
  }

  ghost predicate Lists(names: seq<string>, keys: set<string>) {
    && DistinctNames(names)
    && (forall i :: 0 <= i < |names| ==> names[i] in keys)
    && (forall n :: n in keys ==> exists i :: 0 <= i < |names| && names[i] == n)
  }

  lemma SortedElements(names: set<string>)
    ensures Lists(Sorted(names), names)
  {
    SortedIn(names);
    forall n | n in names ensures exists i :: 0 <= i < |Sorted(names)| && Sorted(names)[i] == n {
      assert n in Sorted(names);
    }
  }

  ghost function PlanNodeUnits(plan: Plan): seq<Unit>
    requires PlanReady(plan)
  {
    SortedElements(plan.nodes.Keys);
    NodeUnits(plan.nodes, Sorted(plan.nodes.Keys))
  }

  ghost function PlanRelUnits(plan: Plan): seq<Unit>
    requires PlanReady(plan)
  {
    SortedElements(plan.rels.Keys);
    RelUnits(plan.rels, Sorted(plan.rels.Keys))
  }

  lemma UnitNamesAre(units: seq<Unit>, names: seq<string>, keys: set<string>)
    requires |units| == |names| && Lists(names, keys) && forall i :: 0 <= i < |units| ==> units[i].name == names[i]
    ensures UnitNames(units) == keys && DistinctUnits(units)
  {
    forall n | n in keys ensures n in UnitNames(units) {
      var i :| 0 <= i < |names| && names[i] == n;
      assert units[i].name == n;
    }
  }

  ghost predicate EndpointsIn(rels: map<string, RelTable>, labels: set<string>) {
    forall k :: k in rels ==> rels[k].source in labels && rels[k].target in labels
  }

  lemma NodeUnitNames(nodes: map<string, Table>, names: seq<string>)
    requires NodesReady(nodes) && Lists(names, nodes.Keys)
    ensures UnitNames(NodeUnits(nodes, names)) == nodes.Keys && DistinctUnits(NodeUnits(nodes, names))
  {
    UnitNamesAre(NodeUnits(nodes, names), names, nodes.Keys);
  }

  lemma RelUnitNames(rels: map<string, RelTable>, names: seq<string>)
    requires RelsReady(rels) && Lists(names, rels.Keys)
    ensures UnitNames(RelUnits(rels, names)) == rels.Keys && DistinctUnits(RelUnits(rels, names))
  {
    UnitNamesAre(RelUnits(rels, names), names, rels.Keys);
  }

  /** No cell of a NOT NULL column is blank, in any table. */
  ghost predicate PlanFilled(plan: Plan) {
    && (forall k :: k in plan.nodes ==> TableFilled(plan.nodes[k].columns, plan.nodes[k].rows))
    && (forall k :: k in plan.rels ==> TableFilled(plan.rels[k].columns, plan.rels[k].rows))
  }

  lemma NodeUnitsFilled(nodes: map<string, Table>, names: seq<string>)
    requires NodesReady(nodes) && Lists(names, nodes.Keys)
    ensures AllFilled(NodeUnits(nodes, names))
       <==> forall k :: k in nodes ==> TableFilled(nodes[k].columns, nodes[k].rows)
  {
    var units := NodeUnits(nodes, names);
    if AllFilled(units) {
      forall k | k in nodes ensures TableFilled(nodes[k].columns, nodes[k].rows) {
        var i :| 0 <= i < |names| && names[i] == k;
        assert units[i].filled;
      }
    }
  }

  lemma RelUnitsFilled(rels: map<string, RelTable>, names: seq<string>)
    requires RelsReady(rels) && Lists(names, rels.Keys)
    ensures AllFilled(RelUnits(rels, names)) <==> forall k :: k in rels ==> TableFilled(rels[k].columns, rels[k].rows)
  {
    var units := RelUnits(rels, names);
    if AllFilled(units) {
      forall k | k in rels ensures TableFilled(rels[k].columns, rels[k].rows) {
        var i :| 0 <= i < |names| && names[i] == k;
        assert units[i].filled;
      }
    }
  }

  lemma PlanUnitsFilled(plan: Plan)
    requires PlanReady(plan)
    ensures AllFilled(PlanNodeUnits(plan)) && AllFilled(PlanRelUnits(plan)) <==> PlanFilled(plan)
  {
    SortedElements(plan.nodes.Keys);
    SortedElements(plan.rels.Keys);
    NodeUnitsFilled(plan.nodes, Sorted(plan.nodes.Keys));
    RelUnitsFilled(plan.rels, Sorted(plan.rels.Keys));
  }

  lemma EndsAgree(units: seq<Unit>, rels: map<string, RelTable>, names: seq<string>, labels: set<string>)
    requires |units| == |names| && Lists(names, rels.Keys)
    requires forall i :: 0 <= i < |units| ==>
               units[i].edge == Some(EdgeInfo(names[i], rels[names[i]].source, rels[names[i]].target))
    ensures EndsIn(units, labels) <==> EndpointsIn(rels, labels)
  {
    if EndsIn(units, labels) {
      forall k | k in rels ensures rels[k].source in labels && rels[k].target in labels {
        var i :| 0 <= i < |names| && names[i] == k;
        assert units[i].edge.Some?;
      }
    }
  }

  lemma PlanUnitNames(plan: Plan, labels: set<string>)
    requires PlanReady(plan)
    ensures UnitNames(PlanNodeUnits(plan)) == plan.nodes.Keys && DistinctUnits(PlanNodeUnits(plan))
    ensures UnitNames(PlanRelUnits(plan)) == plan.rels.Keys && DistinctUnits(PlanRelUnits(plan))
    ensures EndsIn(PlanRelUnits(plan), labels) <==> EndpointsIn(plan.rels, labels)
  {
    SortedElements(plan.nodes.Keys);
    SortedElements(plan.rels.Keys);
    NodeUnitNames(plan.nodes, Sorted(plan.nodes.Keys));
    RelUnitNames(plan.rels, Sorted(plan.rels.Keys));
    EndsAgree(PlanRelUnits(plan), plan.rels, Sorted(plan.rels.Keys), labels);
  }

  /** What the engine asks of a script: free table names, no name used for both a label and a relationship type, no
      blank cell in a NOT NULL column, and a node label for both ends of every relationship table. */
  ghost predicate Accepts(plan: Plan, db: Db) {
    && plan.nodes.Keys !! db.tables.Keys && plan.rels.Keys !! db.tables.Keys && plan.nodes.Keys !! plan.rels.Keys
    && PlanFilled(plan) && EndpointsIn(plan.rels, db.nodeLabels.Keys + plan.nodes.Keys)
  }

  ghost function AfterPlan(plan: Plan, db: Db): Db
    requires PlanReady(plan)
  {
    AddUnits(AddUnits(db, PlanNodeUnits(plan)), PlanRelUnits(plan))
  }

  lemma AcceptsIsUnitsOk(plan: Plan, db: Db)
    requires PlanReady(plan)
    ensures UnitsOk(PlanNodeUnits(plan) + PlanRelUnits(plan), db) <==> Accepts(plan, db)
    ensures AddUnits(db, PlanNodeUnits(plan) + PlanRelUnits(plan)) == AfterPlan(plan, db)
    ensures AfterPlan(plan, db).tables.Keys == db.tables.Keys + plan.nodes.Keys + plan.rels.Keys
    ensures AfterPlan(plan, db).nodeLabels.Keys == db.nodeLabels.Keys + plan.nodes.Keys
  {
    PlanUnitNames(plan, db.nodeLabels.Keys + plan.nodes.Keys);
    PlanUnitsFilled(plan);
    UnitsAccepted(PlanNodeUnits(plan), PlanRelUnits(plan), db);
  }

  lemma BeginAndCommit(lines: seq<Line>, db: Db)
    requires LinesOk(lines)
    ensures LinesOk([BeginLine] + lines + [CommitLine]) && Run([BeginLine] + lines + [CommitLine], db) == Run(lines, db)
  {
    assert LinesOk([BeginLine]) && LinesOk([CommitLine]);
    RunAppend([BeginLine], lines, db);
    RunAppend([BeginLine] + lines, [CommitLine], db);
    assert Stmts([BeginLine]) == [Begin] && Stmts([CommitLine]) == [Commit];
    ExecOne(Begin, db);
    if Run(lines, db).Ok? { ExecOne(Commit, Run(lines, db).value); }
  }

  lemma PlanLinesAreUnits(plan: Plan)
    requires PlanReady(plan)
    ensures PlanLines(plan) == [BeginLine] + UnitLines(PlanNodeUnits(plan) + PlanRelUnits(plan)) + [CommitLine]
    ensures AllWork(PlanNodeUnits(plan) + PlanRelUnits(plan))
  {
    SortedElements(plan.nodes.Keys);
    SortedElements(plan.rels.Keys);
    NodeUnitLines(plan.nodes, Sorted(plan.nodes.Keys));
    RelUnitLines(plan.rels, Sorted(plan.rels.Keys));
    UnitLinesAppend(PlanNodeUnits(plan), PlanRelUnits(plan));
    AllWorkAppend(PlanNodeUnits(plan), PlanRelUnits(plan));
    LinesShape([BeginLine], UnitLines(PlanNodeUnits(plan)), UnitLines(PlanRelUnits(plan)), [CommitLine]);
  }

  lemma LinesShape(a: seq<Line>, b: seq<Line>, c: seq<Line>, d: seq<Line>)
    ensures a + b + c + d == a + (b + c) + d
  {
  }

  /** The printed script of a plan, run by the engine on any database that imports built, is accepted exactly
      when Accepts says so, and then leaves such a database. */
  lemma ScriptRuns(plan: Plan, db: Db)
    requires PlanReady(plan) && ImportDb(db)
    ensures Execute(LinesText(PlanLines(plan)), db) == if Accepts(plan, db) then Ok(AfterPlan(plan, db)) else Err
    ensures Accepts(plan, db) ==> ImportDb(AfterPlan(plan, db))
  {
    var units := PlanNodeUnits(plan) + PlanRelUnits(plan);
    PlanLinesAreUnits(plan);
    UnitsRun(units, db);
    AcceptsIsUnitsOk(plan, db);
    BeginAndCommit(UnitLines(units), db);
    ScriptRoundTrip(PlanLines(plan));
  }

  /** Every table of an accepted plan is stored with the plan's columns and rows. */
  lemma NodesAreStored(plan: Plan, db: Db, name: string)
    requires PlanReady(plan) && Accepts(plan, db) && name in plan.nodes
    ensures NodeReady(name, plan.nodes[name]) && name in AfterPlan(plan, db).tables
    ensures AfterPlan(plan, db).tables[name] == StoredTable(name, plan.nodes[name].columns, plan.nodes[name].rows)
  {
    SortedElements(plan.nodes.Keys);
    var nodes, rels := PlanNodeUnits(plan), PlanRelUnits(plan);
    PlanUnitNames(plan, {});
    var i :| 0 <= i < |Sorted(plan.nodes.Keys)| && Sorted(plan.nodes.Keys)[i] == name;
    assert nodes[i].name == name;
    UnitStored(nodes, db, i);
    TableKept(rels, AddUnits(db, nodes), name);
  }

  lemma RelsAreStored(plan: Plan, db: Db, name: string)
    requires PlanReady(plan) && name in plan.rels
    ensures RelReady(name, plan.rels[name]) && name in AfterPlan(plan, db).tables
    ensures AfterPlan(plan, db).tables[name] == StoredTable(name, plan.rels[name].columns, plan.rels[name].rows)
  {
    SortedElements(plan.rels.Keys);
    var rels := PlanRelUnits(plan);
    PlanUnitNames(plan, {});
    var i :| 0 <= i < |Sorted(plan.rels.Keys)| && Sorted(plan.rels.Keys)[i] == name;
    assert rels[i].name == name;
    UnitStored(rels, AddUnits(db, PlanNodeUnits(plan)), i);
  }

  lemma ScriptRunsByKeys(plan: Plan, db: Db, tables: set<string>, labels: set<string>)
    requires PlanReady(plan) && ImportDb(db) && db.tables.Keys == tables && db.nodeLabels.Keys == labels
    ensures Execute(LinesText(PlanLines(plan)), db).Ok? <==>
              && plan.nodes.Keys !! tables && plan.rels.Keys !! tables && plan.nodes.Keys !! plan.rels.Keys
              && PlanFilled(plan) && EndpointsIn(plan.rels, labels + plan.nodes.Keys)
  {
    ScriptRuns(plan, db);
  }

  lemma AfterKeys(plan: Plan, db: Db)
    requires PlanReady(plan)
    ensures AfterPlan(plan, db).tables.Keys == db.tables.Keys + plan.nodes.Keys + plan.rels.Keys
    ensures AfterPlan(plan, db).nodeLabels.Keys == db.nodeLabels.Keys + plan.nodes.Keys
  {
    AcceptsIsUnitsOk(plan, db);
  }

  lemma AfterIsImportDb(plan: Plan, db: Db)
    requires PlanReady(plan) && ImportDb(db) && Accepts(plan, db)
    ensures ImportDb(AfterPlan(plan, db))
  {
    ScriptRuns(plan, db);
  }

  lemma AfterFirst(first: Plan)
    requires PlanReady(first) && Accepts(first, EMPTY_DB)
    ensures ImportDb(AfterPlan(first, EMPTY_DB))
    ensures AfterPlan(first, EMPTY_DB).tables.Keys == first.nodes.Keys + first.rels.Keys
    ensures AfterPlan(first, EMPTY_DB).nodeLabels.Keys == first.nodes.Keys
  {
    AfterIsImportDb(first, EMPTY_DB);
    AfterKeys(first, EMPTY_DB);
    assert EMPTY_DB.tables.Keys == {} && EMPTY_DB.nodeLabels.Keys == {};
  }

  /** The second run of a resumed import: its script goes through after the first exactly when no table is
      touched by both runs, no cell of a NOT NULL column is blank and all end labels exist, whatever the saved state
      says. */
  lemma ResumedScriptRuns(first: Plan, second: Plan)
    requires PlanReady(first) && PlanReady(second) && Accepts(first, EMPTY_DB)
    ensures Execute(LinesText(PlanLines(second)), AfterPlan(first, EMPTY_DB)).Ok? <==>
              && second.nodes.Keys !! first.nodes.Keys + first.rels.Keys
              && second.rels.Keys !! first.nodes.Keys + first.rels.Keys
              && second.nodes.Keys !! second.rels.Keys && PlanFilled(second)
              && EndpointsIn(second.rels, first.nodes.Keys + second.nodes.Keys)
  {
    AfterFirst(first);
    ScriptRunsByKeys(second, AfterPlan(first, EMPTY_DB), first.nodes.Keys + first.rels.Keys, first.nodes.Keys);
  }
}
