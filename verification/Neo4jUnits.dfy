/** Scripts made of units, each creating one table: when the engine accepts them and what it then holds. */
module Neo4jUnits {
  import opened Wrappers
  import opened SqlText
  import opened SqlScript
  import opened SqlEngine
  import opened Neo4jExecution

  /** The lines of one table, whether its rows can be stored, and what the lines add: the stored table and either a node
      label or an edge. */
  datatype Unit = Unit(name: string, lines: seq<Line>, filled: bool, stored: DbTable, edge: Option<EdgeInfo>)

  function AddUnit(db: Db, u: Unit): Db {
    match u.edge
    case None => WithNode(db, u.name, u.stored)
    case Some(edge) => WithEdge(db, u.name, u.stored, edge)
  }

  /** The name is free, the rows can be stored and both ends of an edge have a label. */
  predicate UnitOk(u: Unit, db: Db) {
    && u.name !in db.tables && u.filled
    && (u.edge.Some? ==> u.edge.value.source in db.nodeLabels && u.edge.value.target in db.nodeLabels)
  }

  ghost predicate Works(u: Unit) {
    && LinesOk(u.lines)
    && forall db :: ImportDb(db) ==>
         && Run(u.lines, db) == (if UnitOk(u, db) then Ok(AddUnit(db, u)) else Err)
         && (UnitOk(u, db) ==> ImportDb(AddUnit(db, u)))
  }

  function UnitLines(units: seq<Unit>): seq<Line> {
    if units == [] then [] else units[0].lines + UnitLines(units[1..])
  }

  function AddUnits(db: Db, units: seq<Unit>): Db
    decreases |units|
  {
    if units == [] then db else AddUnits(AddUnit(db, units[0]), units[1..])
  }

  predicate UnitsOk(units: seq<Unit>, db: Db)
    decreases |units|
  {
    units != [] ==> UnitOk(units[0], db) && UnitsOk(units[1..], AddUnit(db, units[0]))
  }

  ghost predicate AllWork(units: seq<Unit>) { forall i :: 0 <= i < |units| ==> Works(units[i]) }

  lemma {:induction false} UnitLinesOk(units: seq<Unit>)
    requires AllWork(units)
    ensures LinesOk(UnitLines(units))
    decreases |units|
  {
    if units != [] {
      assert Works(units[0]);
      UnitLinesOk(units[1..]);
    }
  }

  lemma {:induction false} UnitsRun(units: seq<Unit>, db: Db)
    requires AllWork(units) && ImportDb(db)
    ensures LinesOk(UnitLines(units))
    ensures Run(UnitLines(units), db) == if UnitsOk(units, db) then Ok(AddUnits(db, units)) else Err
    ensures UnitsOk(units, db) ==> ImportDb(AddUnits(db, units))
    decreases |units|
  {
    UnitLinesOk(units);
    if units != [] {
      assert Works(units[0]);
      UnitLinesOk(units[1..]);
      RunAppend(units[0].lines, UnitLines(units[1..]), db);
      if UnitOk(units[0], db) { UnitsRun(units[1..], AddUnit(db, units[0])); }
    }
  }

  lemma {:induction false} UnitLinesAppend(a: seq<Unit>, b: seq<Unit>)
    ensures UnitLines(a + b) == UnitLines(a) + UnitLines(b)
    decreases |a|
  {
    if a == [] {
      assert a + b == b;
    } else {
      UnitLinesAppend(a[1..], b);
      assert (a + b)[1..] == a[1..] + b;
    }
  }

  // ----- the same, without the order of the steps -----

  function UnitNames(units: seq<Unit>): set<string> { set i | 0 <= i < |units| :: units[i].name }

  predicate DistinctUnits(units: seq<Unit>) { forall i, j :: 0 <= i < j < |units| ==> units[i].name != units[j].name }

  predicate AllNodes(units: seq<Unit>) { forall i :: 0 <= i < |units| ==> units[i].edge.None? }

  predicate AllEdges(units: seq<Unit>) { forall i :: 0 <= i < |units| ==> units[i].edge.Some? }

  predicate AllFilled(units: seq<Unit>) { forall i :: 0 <= i < |units| ==> units[i].filled }

  predicate EndsIn(units: seq<Unit>, labels: set<string>) {
    forall i :: 0 <= i < |units| && units[i].edge.Some? ==>
      units[i].edge.value.source in labels && units[i].edge.value.target in labels
  }

  lemma NamesCons(units: seq<Unit>)
    requires units != [] && DistinctUnits(units)
    ensures UnitNames(units) == {units[0].name} + UnitNames(units[1..]) && units[0].name !in UnitNames(units[1..])
    ensures DistinctUnits(units[1..])
  {
    forall n | n in UnitNames(units) ensures n in {units[0].name} + UnitNames(units[1..]) {
      var i :| 0 <= i < |units| && units[i].name == n;
      assert i > 0 ==> units[1..][i - 1].name == n;
    }
    forall n | n in UnitNames(units[1..]) ensures n in UnitNames(units) && n != units[0].name {
      var i :| 0 <= i < |units[1..]| && units[1..][i].name == n;
      assert units[i + 1].name == n;
    }
    assert units[0].name in UnitNames(units);
  }

  lemma FilledCons(units: seq<Unit>)
    requires units != []
    ensures AllFilled(units) <==> units[0].filled && AllFilled(units[1..])
  {
    if units[0].filled && AllFilled(units[1..]) {
      forall i | 0 <= i < |units| ensures units[i].filled { if i > 0 { assert units[1..][i - 1] == units[i]; } }
    }
  }

  lemma {:induction false} NodeUnitsOk(units: seq<Unit>, db: Db)
    requires AllNodes(units) && DistinctUnits(units)
    ensures UnitsOk(units, db) <==> UnitNames(units) !! db.tables.Keys && AllFilled(units)
    ensures AddUnits(db, units).tables.Keys == db.tables.Keys + UnitNames(units)
    ensures AddUnits(db, units).nodeLabels.Keys == db.nodeLabels.Keys + UnitNames(units)
    decreases |units|
  {
    if units != [] {
      NamesCons(units);
      FilledCons(units);
      NodeUnitsOk(units[1..], AddUnit(db, units[0]));
    }
  }

  lemma {:induction false} EdgeUnitsOk(units: seq<Unit>, db: Db)
    requires AllEdges(units) && DistinctUnits(units)
    ensures UnitsOk(units, db) <==>
              UnitNames(units) !! db.tables.Keys && AllFilled(units) && EndsIn(units, db.nodeLabels.Keys)
    ensures AddUnits(db, units).tables.Keys == db.tables.Keys + UnitNames(units)
    ensures AddUnits(db, units).nodeLabels == db.nodeLabels
    decreases |units|
  {
    if units != [] {
      var next := AddUnit(db, units[0]);
      NamesCons(units);
      FilledCons(units);
      EdgeUnitsOk(units[1..], next);
      EndsCons(units, db.nodeLabels.Keys);
    }
  }

  lemma EndsCons(units: seq<Unit>, labels: set<string>)
    requires units != [] && AllEdges(units)
    ensures EndsIn(units, labels) <==>
              units[0].edge.value.source in labels && units[0].edge.value.target in labels && EndsIn(units[1..], labels)
  {
    if units[0].edge.value.source in labels && units[0].edge.value.target in labels && EndsIn(units[1..], labels) {
      forall i | 0 <= i < |units| ensures units[i].edge.value.source in labels && units[i].edge.value.target in labels {
        if i > 0 { assert units[1..][i - 1] == units[i]; }
      }
    }
  }

  lemma {:induction false} UnitsAppend(a: seq<Unit>, b: seq<Unit>, db: Db)
    ensures UnitsOk(a + b, db) <==> UnitsOk(a, db) && UnitsOk(b, AddUnits(db, a))
    ensures AddUnits(db, a + b) == AddUnits(AddUnits(db, a), b)
    decreases |a|
  {
    if a == [] {
      assert a + b == b;
    } else {
      UnitsAppend(a[1..], b, AddUnit(db, a[0]));
      assert (a + b)[1..] == a[1..] + b;
    }
  }

  /** Each unit's table is there at the end. */
  lemma {:induction false} UnitStored(units: seq<Unit>, db: Db, i: nat)
    requires i < |units| && DistinctUnits(units)
    ensures units[i].name in AddUnits(db, units).tables
    ensures AddUnits(db, units).tables[units[i].name] == units[i].stored
    decreases |units|
  {
    var next := AddUnit(db, units[0]);
    NamesCons(units);
    if i == 0 {
      TableKept(units[1..], next, units[0].name);
    } else {
      UnitStored(units[1..], next, i - 1);
    }
  }

  lemma {:induction false} TableKept(units: seq<Unit>, db: Db, name: string)
    requires name in db.tables && name !in UnitNames(units)
    ensures name in AddUnits(db, units).tables && AddUnits(db, units).tables[name] == db.tables[name]
    decreases |units|
  {
    if units != [] {
      assert units[0].name in UnitNames(units);
      forall n | n in UnitNames(units[1..]) ensures n in UnitNames(units) {
        var i :| 0 <= i < |units[1..]| && units[1..][i].name == n;
        assert units[i + 1].name == n;
      }
      TableKept(units[1..], AddUnit(db, units[0]), name);
    }
  }

  /** Node tables first, then edge tables. */
  lemma UnitsAccepted(nodes: seq<Unit>, edges: seq<Unit>, db: Db)
    requires AllNodes(nodes) && DistinctUnits(nodes) && AllEdges(edges) && DistinctUnits(edges)
    ensures UnitsOk(nodes + edges, db) <==>
              && UnitNames(nodes) !! db.tables.Keys && UnitNames(edges) !! db.tables.Keys
              && UnitNames(nodes) !! UnitNames(edges) && AllFilled(nodes) && AllFilled(edges)
              && EndsIn(edges, db.nodeLabels.Keys + UnitNames(nodes))
    ensures AddUnits(db, nodes + edges) == AddUnits(AddUnits(db, nodes), edges)
    ensures AddUnits(db, nodes + edges).tables.Keys == db.tables.Keys + UnitNames(nodes) + UnitNames(edges)
    ensures AddUnits(db, nodes + edges).nodeLabels.Keys == db.nodeLabels.Keys + UnitNames(nodes)
  {
    UnitsAppend(nodes, edges, db);
    NodeUnitsOk(nodes, db);
    EdgeUnitsOk(edges, AddUnits(db, nodes));
  }

  lemma AllWorkAppend(a: seq<Unit>, b: seq<Unit>)
    requires AllWork(a) && AllWork(b)
    ensures AllWork(a + b)
  {
    forall i | 0 <= i < |a + b| ensures Works((a + b)[i]) {
      if i < |a| { assert (a + b)[i] == a[i]; } else { assert (a + b)[i] == b[i - |a|]; }
    }
  }
}
