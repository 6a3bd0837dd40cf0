/** What one row of an export adds to the plan, in terms of its header line and its fields
    (`scan_node_row`, `scan_relationship_row` and `collect_properties`, xtask/src/neo4j_import.rs). */
module Neo4jRows {
  import opened Wrappers
  import opened Text
  import opened Csv
  import opened Identifiers
  import opened Neo4jCsv
  import opened Neo4jImport

  // ----- property columns -----

  /** Column k is a property of this name. */
  predicate IsProperty(columns: seq<string>, k: int, name: string) {
    0 <= k < |columns| && !IsMeta(columns[k]) && ColumnOf(columns[k]).name == name
  }

  predicate NoProperty(columns: seq<string>, from: nat, to: nat, name: string) {
    forall k :: from <= k < to ==> !IsProperty(columns, k, name)
  }

  /** The row takes the last field of a name. */
  lemma {:induction false} LastFieldIs(h: Header, fields: seq<string>, i: nat, columns: Columns, row: Row,
                                       name: string, k: nat)
    requires |fields| == |h.columns| && i <= k && IsProperty(h.columns, k, name)
    requires NoProperty(h.columns, k + 1, |h.columns|, name)
    ensures var r := Collect(h, fields, i, columns, row).1; name in r && r[name] == fields[k]
    decreases k - i
  {
    if IsMeta(h.columns[i]) {
      LastFieldIs(h, fields, i + 1, columns, row, name, k);
    } else {
      var col := ColumnOf(h.columns[i]);
      if i == k {
        OtherFieldsStay(h, fields, i + 1, OrInsert(columns, col), row[col.name := fields[i]], name);
      } else {
        LastFieldIs(h, fields, i + 1, OrInsert(columns, col), row[col.name := fields[i]], name, k);
      }
    }
  }

  lemma {:induction false} OtherFieldsStay(h: Header, fields: seq<string>, i: nat, columns: Columns, row: Row,
                                           name: string)
    requires |fields| == |h.columns| && i <= |fields| && NoProperty(h.columns, i, |h.columns|, name)
    ensures var r := Collect(h, fields, i, columns, row).1;
            (name in r <==> name in row) && (name in row ==> r[name] == row[name])
    decreases |fields| - i
  {
    if i < |fields| {
      if IsMeta(h.columns[i]) {
        OtherFieldsStay(h, fields, i + 1, columns, row, name);
      } else {
        var col := ColumnOf(h.columns[i]);
        assert IsProperty(h.columns, i, col.name);
        OtherFieldsStay(h, fields, i + 1, OrInsert(columns, col), row[col.name := fields[i]], name);
      }
    }
  }

  /** A table that knows a column keeps its type. */
  lemma {:induction false} KnownTypeStays(h: Header, fields: seq<string>, i: nat, columns: Columns, row: Row,
                                          name: string)
    requires |fields| == |h.columns| && i <= |fields| && name in columns
    ensures var r := Collect(h, fields, i, columns, row).0; name in r && r[name] == columns[name]
    decreases |fields| - i
  {
    if i < |fields| {
      if IsMeta(h.columns[i]) {
        KnownTypeStays(h, fields, i + 1, columns, row, name);
      } else {
        var col := ColumnOf(h.columns[i]);
        KnownTypeStays(h, fields, i + 1, OrInsert(columns, col), row[col.name := fields[i]], name);
      }
    }
  }

  /** Otherwise it takes the type of the first column of the name. */
  lemma {:induction false} FirstTypeIs(h: Header, fields: seq<string>, i: nat, columns: Columns, row: Row,
                                       name: string, k: nat)
    requires |fields| == |h.columns| && i <= k && IsProperty(h.columns, k, name)
    requires NoProperty(h.columns, i, k, name) && name !in columns
    ensures var r := Collect(h, fields, i, columns, row).0; name in r && r[name] == ColumnOf(h.columns[k])
    decreases k - i
  {
    if IsMeta(h.columns[i]) {
      FirstTypeIs(h, fields, i + 1, columns, row, name, k);
    } else {
      var col := ColumnOf(h.columns[i]);
      assert IsProperty(h.columns, i, col.name);
      if i == k {
        KnownTypeStays(h, fields, i + 1, OrInsert(columns, col), row[col.name := fields[i]], name);
      } else {
        FirstTypeIs(h, fields, i + 1, OrInsert(columns, col), row[col.name := fields[i]], name, k);
      }
    }
  }

  lemma {:induction false} NoOtherTypes(h: Header, fields: seq<string>, i: nat, columns: Columns, row: Row,
                                        name: string)
    requires |fields| == |h.columns| && i <= |fields| && NoProperty(h.columns, i, |h.columns|, name)
    ensures name in Collect(h, fields, i, columns, row).0 <==> name in columns
    decreases |fields| - i
  {
    if i < |fields| {
      if IsMeta(h.columns[i]) {
        NoOtherTypes(h, fields, i + 1, columns, row, name);
      } else {
        var col := ColumnOf(h.columns[i]);
        assert IsProperty(h.columns, i, col.name);
        NoOtherTypes(h, fields, i + 1, OrInsert(columns, col), row[col.name := fields[i]], name);
      }
    }
  }

  /** A row holds the fields of its properties and, where no property takes its name, what it started with. */
  ghost predicate RowHolds(columns: seq<string>, fields: seq<string>, row: Row, start: Row)
    requires |fields| == |columns|
  {
    && (forall k: nat, n :: IsProperty(columns, k, n) && NoProperty(columns, k + 1, |columns|, n) ==>
          n in row && row[n] == fields[k])
    && (forall n :: NoProperty(columns, 0, |columns|, n) ==>
          (n in row <==> n in start) && (n in start ==> row[n] == start[n]))
  }

  /** A table's columns stay, and each new property adds one, of the type of its first column. */
  ghost predicate TypesHold(columns: seq<string>, before: Columns, after: Columns) {
    && (forall n :: n in before ==> n in after && after[n] == before[n])
    && (forall k: nat, n :: IsProperty(columns, k, n) && NoProperty(columns, 0, k, n) && n !in before ==>
          n in after && after[n] == ColumnOf(columns[k]))
    && (forall n :: NoProperty(columns, 0, |columns|, n) ==> (n in after <==> n in before))
  }

  /** What `collect_properties` does to a row and a table's columns. */
  lemma CollectIs(h: Header, fields: seq<string>, columns: Columns, row: Row)
    requires |fields| == |h.columns|
    ensures RowHolds(h.columns, fields, Collect(h, fields, 0, columns, row).1, row)
    ensures TypesHold(h.columns, columns, Collect(h, fields, 0, columns, row).0)
  {
    var r := Collect(h, fields, 0, columns, row);
    forall k: nat, n | IsProperty(h.columns, k, n) && NoProperty(h.columns, k + 1, |h.columns|, n)
      ensures n in r.1 && r.1[n] == fields[k]
    {
      LastFieldIs(h, fields, 0, columns, row, n, k);
    }
    forall n | NoProperty(h.columns, 0, |h.columns|, n)
      ensures (n in r.1 <==> n in row) && (n in row ==> r.1[n] == row[n])
      ensures n in r.0 <==> n in columns
    {
      OtherFieldsStay(h, fields, 0, columns, row, n);
      NoOtherTypes(h, fields, 0, columns, row, n);
    }
    forall n | n in columns ensures n in r.0 && r.0[n] == columns[n] { KnownTypeStays(h, fields, 0, columns, row, n); }
    forall k: nat, n | IsProperty(h.columns, k, n) && NoProperty(h.columns, 0, k, n) && n !in columns
      ensures n in r.0 && r.0[n] == ColumnOf(h.columns[k])
    {
      FirstTypeIs(h, fields, 0, columns, row, n, k);
    }
  }

  // ----- relationships -----

  /** The label of a node id: the first of its labels, or "unlabeled". */
  predicate LabelOf(labels: map<string, seq<string>>, id: string, name: string) {
    if id in labels && labels[id] != [] then name == labels[id][0] else name == "unlabeled"
  }

  /** One row more in a table, and its other rows as they were. */
  ghost predicate RowAdded(before: seq<Row>, after: seq<Row>, columns: seq<string>, fields: seq<string>, start: Row)
    requires |fields| == |columns|
  {
    && |after| == |before| + 1 && after[..|before|] == before
    && RowHolds(columns, fields, after[|before|], start)
  }

  /** A row of a file with the columns :START_ID, :END_ID and :TYPE: an edge from the id in the first to the id in the
      second, in the table named by the third, with the fields of the property columns. */
  lemma EdgeRowIs(columns: seq<string>, fields: seq<string>, file: string, line: nat, plan: Plan,
                  s: nat, e: nat, k: nat)
    requires |fields| == |columns|
    requires LastEnding(columns, ":START_ID", Some(s)) && LastEnding(columns, ":END_ID", Some(e))
    requires LastEnding(columns, ":TYPE", Some(k))
    requires Trim(fields[s]) != [] && Trim(fields[e]) != [] && Trim(fields[k]) != []
    ensures var next, name := RelRow(HeaderOf(columns), fields, file, line, plan), Sanitize(Trim(fields[k]));
            && next == plan.(rels := next.rels) && next.rels.Keys == plan.rels.Keys + {name}
            && (forall n :: n in plan.rels && n != name ==> next.rels[n] == plan.rels[n])
            && RowAdded(if name in plan.rels then plan.rels[name].rows else [], next.rels[name].rows, columns, fields,
                        map["source_id" := Trim(fields[s]), "target_id" := Trim(fields[e])])
            && if name in plan.rels then
                 next.rels[name].source == plan.rels[name].source && next.rels[name].target == plan.rels[name].target
               else
                 && LabelOf(plan.labels, Trim(fields[s]), next.rels[name].source)
                 && LabelOf(plan.labels, Trim(fields[e]), next.rels[name].target)
  {
    var h := HeaderOf(columns);
    HeaderReads(columns);
    SameLast(columns, ":START_ID", h.startAt, s);
    SameLast(columns, ":END_ID", h.endAt, e);
    SameLast(columns, ":TYPE", h.typeAt, k);
    var source, target, name := Trim(fields[s]), Trim(fields[e]), Sanitize(Trim(fields[k]));
    var t := RelTableFor(plan, name, source, target);
    CollectIs(h, fields, t.columns, map[SOURCE_ID := source, TARGET_ID := target]);
  }

  // ----- nodes -----

  /** How often a name is on a list. */
  function Times(names: seq<string>, name: string): nat { multiset(names)[name] }

  /** As many rows more in a table, each with the node's id and the fields of the property columns. */
  ghost predicate RowsAdded(before: seq<Row>, after: seq<Row>, n: nat,
                            columns: seq<string>, fields: seq<string>, start: Row)
    requires |fields| == |columns|
  {
    && |after| == |before| + n && after[..|before|] == before
    && forall i :: |before| <= i < |after| ==> RowHolds(columns, fields, after[i], start)
  }

  function RowsOf(nodes: map<string, Table>, name: string): seq<Row> { if name in nodes then nodes[name].rows else [] }

  lemma PutNodeIs(nodes: map<string, Table>, first: string, id: string, h: Header, fields: seq<string>, name: string)
    requires |fields| == |h.columns|
    ensures var next := PutNode(nodes, first, id, h, fields);
            && (name in next <==> name in nodes || name == first)
            && (name != first && name in nodes ==> next[name] == nodes[name])
            && (if name == first then
                  RowAdded(RowsOf(nodes, name), RowsOf(next, name), h.columns, fields, map["id" := id])
                else RowsOf(next, name) == RowsOf(nodes, name))
  {
    CollectIs(h, fields, NodeTable(nodes, first).columns, map[ID := id]);
  }

  lemma TimesCons(names: seq<string>, name: string)
    requires names != []
    ensures Times(names, name) == (if names[0] == name then 1 else 0) + Times(names[1..], name)
    ensures name in names <==> name == names[0] || name in names[1..]
  {
    assert names == [names[0]] + names[1..];
  }

  lemma {:induction false} PutNodesIs(nodes: map<string, Table>, names: seq<string>, id: string, h: Header,
                                      fields: seq<string>, name: string)
    requires |fields| == |h.columns|
    ensures var next := PutNodes(nodes, names, id, h, fields);
            && RowsAdded(RowsOf(nodes, name), RowsOf(next, name), Times(names, name),
                         h.columns, fields, map["id" := id])
            && (name in next <==> name in nodes || name in names)
            && (name in nodes && name !in names ==> next[name] == nodes[name])
    decreases |names|
  {
    if names != [] {
      var mid, next := PutNode(nodes, names[0], id, h, fields), PutNodes(nodes, names, id, h, fields);
      PutNodeIs(nodes, names[0], id, h, fields, name);
      PutNodesIs(mid, names[1..], id, h, fields, name);
      TimesCons(names, name);
      if names[0] == name {
        AddedAfter(RowsOf(nodes, name), RowsOf(mid, name), RowsOf(next, name), Times(names[1..], name),
                   h.columns, fields, map["id" := id]);
      }
    }
  }

  lemma AddedAfter(before: seq<Row>, mid: seq<Row>, after: seq<Row>, n: nat,
                   columns: seq<string>, fields: seq<string>, start: Row)
    requires |fields| == |columns|
    requires RowAdded(before, mid, columns, fields, start) && RowsAdded(mid, after, n, columns, fields, start)
    ensures RowsAdded(before, after, n + 1, columns, fields, start)
  {
    assert after[..|before|] == after[..|mid|][..|before|];
    assert after[|before|] == after[..|mid|][|before|];
  }

  /** A row of a file with an :ID column: one row with that id for each label it has, in the label's table. */
  lemma NodeRowIs(columns: seq<string>, fields: seq<string>, file: string, line: nat, plan: Plan, k: nat)
    requires |fields| == |columns| && LastEnding(columns, ":ID", Some(k)) && Trim(fields[k]) != []
    ensures var h := HeaderOf(columns);
            var next, names, id := NodeRow(h, fields, file, line, plan), RowLabels(h, fields), Trim(fields[k]);
            && next == plan.(labels := plan.labels[id := names], nodes := next.nodes)
            && next.nodes.Keys == plan.nodes.Keys + (set n | n in names)
            && forall name :: RowsAdded(RowsOf(plan.nodes, name), RowsOf(next.nodes, name), Times(names, name),
                                        columns, fields, map["id" := id])
  {
    var h := HeaderOf(columns);
    HeaderReads(columns);
    SameLast(columns, ":ID", h.idAt, k);
    var names, id := RowLabels(h, fields), Trim(fields[k]);
    var next := PutNodes(plan.nodes, names, id, h, fields);
    forall name
      ensures RowsAdded(RowsOf(plan.nodes, name), RowsOf(next, name), Times(names, name),
                        columns, fields, map["id" := id])
      ensures name in next <==> name in plan.nodes || name in names
    {
      PutNodesIs(plan.nodes, names, id, h, fields, name);
    }
  }

  // ----- labels -----

  lemma {:induction false} NonBlankAppend(a: seq<string>, b: seq<string>)
    ensures NonBlank(a + b) == NonBlank(a) + NonBlank(b)
    decreases |a|
  {
    if a == [] {
      assert a + b == b;
    } else {
      NonBlankAppend(a[1..], b);
      assert (a + b)[1..] == a[1..] + b && (a + b)[0] == a[0];
    }
  }

  /** A list of labels is cut at its semicolons; each piece counts trimmed, unless it is blank. */
  lemma LabelsAreCut(a: string, b: string)
    ensures SplitMulti(a + ";" + b, ';') == SplitMulti(a, ';') + SplitMulti(b, ';')
    ensures ';' !in a ==> SplitMulti(a, ';') == if Trim(a) == "" then [] else [Trim(a)]
  {
    SplitAround(a, b, ';');
    NonBlankAppend(Split(a, ';'), Split(b, ';'));
    if ';' !in a {
      SplitNone(a, ';');
      assert [a][1..] == [];
      assert NonBlank([a]) == (if Trim(a) == [] then [] else [Trim(a)]) + NonBlank([]);
    }
  }

  predicate IsLabel(s: string) { s != [] && Trim(s) == s && ';' !in s }

  lemma {:induction false} LabelsSplit(words: seq<string>)
    requires words != [] && forall i :: 0 <= i < |words| ==> IsLabel(words[i])
    ensures SplitMulti(Join(words, ";"), ';') == words
    decreases |words|
  {
    assert IsLabel(words[0]);
    if |words| > 1 {
      LabelsSplit(words[1..]);
      LabelsAreCut(words[0], Join(words[1..], ";"));
      assert [words[0]] + words[1..] == words;
    } else {
      LabelsAreCut(words[0], "");
      assert words == [words[0]];
    }
  }

  /** Labels joined by semicolons are taken apart again; without any the node is "unlabeled". */
  lemma LabelsAre(columns: seq<string>, fields: seq<string>, k: nat, words: seq<string>)
    requires |fields| == |columns| && LastEnding(columns, ":LABEL", Some(k)) && fields[k] == Join(words, ";")
    requires forall i :: 0 <= i < |words| ==> IsLabel(words[i])
    ensures RowLabels(HeaderOf(columns), fields) == if words == [] then ["unlabeled"] else SanitizeAll(words)
  {
    LabelAtIs(columns, k);
    if words == [] { NoLabels(); } else { LabelsSplit(words); }
  }

  lemma LabelAtIs(columns: seq<string>, k: nat)
    requires LastEnding(columns, ":LABEL", Some(k))
    ensures HeaderOf(columns).labelAt == Some(k)
  {
    HeaderReads(columns);
    SameLast(columns, ":LABEL", HeaderOf(columns).labelAt, k);
  }

  lemma NoLabels()
    ensures SplitMulti("", ';') == [] && SanitizeAll(["unlabeled"]) == ["unlabeled"]
  {
    LabelsAreCut("", "");
    NormalFormIsFixed("unlabeled");
    assert SanitizeAll(["unlabeled"]) == [Sanitize("unlabeled")] + SanitizeAll([]);
  }

  // ----- lines -----

  /** Some column's name ends with the suffix. */
  ghost predicate HasColumn(columns: seq<string>, suffix: string) { exists k :: LastEnding(columns, suffix, Some(k)) }

  lemma HasColumnIs(columns: seq<string>, suffix: string, at: Option<nat>)
    requires LastEnding(columns, suffix, at)
    ensures at.Some? <==> HasColumn(columns, suffix)
  {
    if k: nat :| LastEnding(columns, suffix, Some(k)) { SameLast(columns, suffix, at, k); }
    if at.Some? { assert LastEnding(columns, suffix, Some(at.value)); }
  }

  /** What becomes of a line: nothing if it is blank; a failed row if its quotes do not close or its fields are not as
      many as the header's; an edge row if the header has both end columns; a node row otherwise. */
  lemma LineIs(columns: seq<string>, text: string, file: string, line: nat, plan: Plan)
    ensures var next, h := ScanLine(HeaderOf(columns), text, file, line, plan), HeaderOf(columns);
            && (AllSpaces(text) ==> next == plan)
            && (!AllSpaces(text) ==>
                  && (QuoteCount(text) % 2 == 1 ==> next == Fail(plan, file, line, UnterminatedQuote))
                  && (QuoteCount(text) % 2 == 0 ==>
                        && ParseLine(text).Fields?
                        && var fields := ParseLine(text).fields;
                           if |fields| != |columns| then next == Fail(plan, file, line, FieldCount)
                           else if HasColumn(columns, ":START_ID") && HasColumn(columns, ":END_ID") then
                             next == RelRow(h, fields, file, line, plan)
                           else next == NodeRow(h, fields, file, line, plan)))
  {
    HeaderReads(columns);
    HasColumnIs(columns, ":START_ID", HeaderOf(columns).startAt);
    HasColumnIs(columns, ":END_ID", HeaderOf(columns).endAt);
    FailsOnOddQuotes(text, false, [], []);
    BlankIs(text);
  }

  lemma BlankIs(s: string)
    ensures Trim(s) == [] <==> AllSpaces(s)
  {
    var lead, trail := TrimIs(s);
    if i :| 0 <= i < |s| && !IsSpace(s[i]) { NotBlank(s, i); }
    if Trim(s) != [] {
      assert s[|lead|] == Trim(s)[0];
    }
  }

  /** A node row needs an ":ID" column that is not blank in it; without one it is reported and changes nothing else. */
  lemma NodeRowRefused(columns: seq<string>, fields: seq<string>, file: string, line: nat, plan: Plan)
    requires |fields| == |columns|
    ensures var next := NodeRow(HeaderOf(columns), fields, file, line, plan);
            && (!HasColumn(columns, ":ID") ==> next == Fail(plan, file, line, NoIdColumn))
            && (forall k: nat :: LastEnding(columns, ":ID", Some(k)) && AllSpaces(fields[k]) ==>
                  next == Fail(plan, file, line, EmptyId))
  {
    var h := HeaderOf(columns);
    HeaderReads(columns);
    HasColumnIs(columns, ":ID", h.idAt);
    forall k: nat | LastEnding(columns, ":ID", Some(k)) && AllSpaces(fields[k])
      ensures NodeRow(h, fields, file, line, plan) == Fail(plan, file, line, EmptyId)
    {
      SameLast(columns, ":ID", h.idAt, k);
      BlankIs(fields[k]);
    }
  }

  /** An edge row needs all three of its columns. */
  lemma EdgeRowRefused(columns: seq<string>, fields: seq<string>, file: string, line: nat, plan: Plan)
    requires |fields| == |columns|
    requires !(HasColumn(columns, ":START_ID") && HasColumn(columns, ":END_ID") && HasColumn(columns, ":TYPE"))
    ensures RelRow(HeaderOf(columns), fields, file, line, plan) == Fail(plan, file, line, MissingColumn)
  {
    var h := HeaderOf(columns);
    HeaderReads(columns);
    HasColumnIs(columns, ":START_ID", h.startAt);
    HasColumnIs(columns, ":END_ID", h.endAt);
    HasColumnIs(columns, ":TYPE", h.typeAt);
  }

  /** An edge row must have none of the three blank. */
  lemma BlankEdgeRefused(columns: seq<string>, fields: seq<string>, file: string, line: nat, plan: Plan,
                         s: nat, e: nat, k: nat)
    requires |fields| == |columns|
    requires LastEnding(columns, ":START_ID", Some(s)) && LastEnding(columns, ":END_ID", Some(e))
    requires LastEnding(columns, ":TYPE", Some(k))
    requires AllSpaces(fields[s]) || AllSpaces(fields[e]) || AllSpaces(fields[k])
    ensures RelRow(HeaderOf(columns), fields, file, line, plan) == Fail(plan, file, line, EmptyEndpoint)
  {
    var h := HeaderOf(columns);
    HeaderReads(columns);
    SameLast(columns, ":START_ID", h.startAt, s);
    SameLast(columns, ":END_ID", h.endAt, e);
    SameLast(columns, ":TYPE", h.typeAt, k);
    BlankIs(fields[s]);
    BlankIs(fields[e]);
    BlankIs(fields[k]);
  }

  lemma SameLast(columns: seq<string>, suffix: string, at: Option<nat>, k: nat)
    requires LastEnding(columns, suffix, at) && LastEnding(columns, suffix, Some(k))
    ensures at == Some(k)
  {
  }
}
