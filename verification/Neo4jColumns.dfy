/** The column order of a table (`ordered_columns`, written once over column records in
    xtask/src/neo4j_import.rs and once over names in xtask/src/neo4j_verify.rs). */
module Neo4jColumns {
  import opened Ordering
  import opened Neo4jCsv
  import opened Neo4jImport

  /** The first part of the sort key; "id" and "source_id" share it. */
  function Rank(name: string): nat {
    if name == ID || name == SOURCE_ID then 0 else if name == TARGET_ID then 1 else 2
  }

  /** The sort keys of a and b in order: only names of the last rank count by themselves. */
  predicate KeyLt(a: string, b: string) {
    Rank(a) < Rank(b) || (Rank(a) == 2 && Rank(b) == 2 && LexLt(a, b))
  }

  // ----- the verifier's form: names -----

  function InsertName(sorted: seq<string>, x: string): seq<string> {
    if sorted == [] then [x]
    else if KeyLt(x, sorted[0]) then [x] + sorted
    else [sorted[0]] + InsertName(sorted[1..], x)
  }

  /** A stable sort by key. */
  function SortNames(names: seq<string>): seq<string> {
    if names == [] then [] else InsertName(SortNames(names[..|names| - 1]), names[|names| - 1])
  }

  function OrderedNames(columns: map<string, SqlType>): seq<string> { SortNames(Sorted(columns.Keys)) }

  // ----- the importer's form: columns -----

  function InsertColumn(sorted: seq<SqlColumn>, x: SqlColumn): seq<SqlColumn> {
    if sorted == [] then [x]
    else if KeyLt(x.name, sorted[0].name) then [x] + sorted
    else [sorted[0]] + InsertColumn(sorted[1..], x)
  }

  function SortColumns(columns: seq<SqlColumn>): seq<SqlColumn> {
    if columns == [] then [] else InsertColumn(SortColumns(columns[..|columns| - 1]), columns[|columns| - 1])
  }

  function ValuesInOrder(columns: Columns): (r: seq<SqlColumn>) {
    var keys := Sorted(columns.Keys);
    seq(|keys|, i requires 0 <= i < |keys| => assert keys[i] in keys; columns[keys[i]])
  }

  function OrderedColumns(columns: Columns): seq<SqlColumn> { SortColumns(ValuesInOrder(columns)) }

  // ----- the order itself -----

  function FullRank(name: string): nat {
    if name == ID then 0 else if name == SOURCE_ID then 1 else if name == TARGET_ID then 2 else 3
  }

  /** "id", then "source_id", then "target_id", then the other names alphabetically. */
  predicate Before(a: string, b: string) {
    FullRank(a) < FullRank(b) || (FullRank(a) == 3 && FullRank(b) == 3 && LexLt(a, b))
  }

  ghost predicate InOrder(names: seq<string>) {
    forall i, j :: 0 <= i < j < |names| ==> Before(names[i], names[j])
  }

  lemma IdBeforeSource()
    ensures LexLe(ID, SOURCE_ID) && ID != SOURCE_ID && ID != TARGET_ID && SOURCE_ID != TARGET_ID
  {
    assert ID[0] == 'i' && SOURCE_ID[0] == 's' && TARGET_ID[0] == 't';
  }

  /** Inserted after everything alphabetically below it, a name meets only keys that decide. */
  lemma KeyDecides(x: string, y: string)
    requires LexLt(y, x)
    ensures KeyLt(x, y) <==> Before(x, y)
    ensures !Before(x, y) ==> Before(y, x)
  {
    IdBeforeSource();
    if x == ID && y == SOURCE_ID { LexAntisym(x, y); }
    if LexLe(x, y) { LexAntisym(x, y); }
  }

  lemma {:induction false} InsertKeepsOrder(sorted: seq<string>, x: string)
    requires InOrder(sorted) && forall y :: y in sorted ==> LexLt(y, x)
    ensures InOrder(InsertName(sorted, x))
    ensures forall y :: y in InsertName(sorted, x) <==> y == x || y in sorted
    ensures |InsertName(sorted, x)| == |sorted| + 1
    decreases |sorted|
  {
    if sorted != [] {
      var y := sorted[0];
      KeyDecides(x, y);
      if KeyLt(x, y) {
        forall j | 0 <= j < |sorted| ensures Before(x, sorted[j]) {
          if j > 0 { BeforeTrans(x, y, sorted[j]); }
        }
      } else {
        assert forall z :: z in sorted[1..] ==> z in sorted;
        InsertKeepsOrder(sorted[1..], x);
        var r := InsertName(sorted[1..], x);
        forall j | 0 <= j < |r| ensures Before(y, r[j]) {
          assert r[j] in r;
          if r[j] != x {
            var k :| 0 <= k < |sorted[1..]| && sorted[1..][k] == r[j];
            assert sorted[k + 1] == r[j];
          }
        }
      }
    }
  }

  lemma BeforeTrans(a: string, b: string, c: string)
    requires Before(a, b) && Before(b, c)
    ensures Before(a, c)
  {
    if FullRank(a) == 3 && FullRank(c) == 3 {
      LexTrans(a, b, c);
      if a == c { LexAntisym(a, b); }
    }
  }

  lemma {:induction false} SortNamesOrders(names: seq<string>)
    requires forall i, j :: 0 <= i < j < |names| ==> LexLt(names[i], names[j])
    ensures InOrder(SortNames(names)) && |SortNames(names)| == |names|
    ensures forall y :: y in SortNames(names) <==> y in names
    decreases |names|
  {
    if names != [] {
      var n := |names| - 1;
      SortNamesOrders(names[..n]);
      forall y | y in SortNames(names[..n]) ensures LexLt(y, names[n]) { }
      InsertKeepsOrder(SortNames(names[..n]), names[n]);
      assert names == names[..n] + [names[n]];
    }
  }

  /** Every column exactly once, the id columns first. */
  lemma OrderedNamesInOrder(columns: map<string, SqlType>)
    ensures InOrder(OrderedNames(columns)) && |OrderedNames(columns)| == |columns.Keys|
    ensures forall y :: y in OrderedNames(columns) <==> y in columns
  {
    SortNamesOrders(Sorted(columns.Keys));
  }

  // ----- the two forms agree -----

  function NamesOf(columns: seq<SqlColumn>): (r: seq<string>) {
    seq(|columns|, i requires 0 <= i < |columns| => columns[i].name)
  }

  lemma {:induction false} InsertAgrees(sorted: seq<SqlColumn>, x: SqlColumn)
    ensures NamesOf(InsertColumn(sorted, x)) == InsertName(NamesOf(sorted), x.name)
    ensures forall c :: c in InsertColumn(sorted, x) <==> c == x || c in sorted
    decreases |sorted|
  {
    if sorted != [] && !KeyLt(x.name, sorted[0].name) {
      InsertAgrees(sorted[1..], x);
      assert NamesOf(sorted)[1..] == NamesOf(sorted[1..]);
    }
  }

  lemma {:induction false} SortAgrees(columns: seq<SqlColumn>)
    ensures NamesOf(SortColumns(columns)) == SortNames(NamesOf(columns))
    ensures forall c :: c in SortColumns(columns) <==> c in columns
    decreases |columns|
  {
    if columns != [] {
      var n := |columns| - 1;
      SortAgrees(columns[..n]);
      InsertAgrees(SortColumns(columns[..n]), columns[n]);
      assert NamesOf(columns)[..n] == NamesOf(columns[..n]);
      assert columns == columns[..n] + [columns[n]];
    }
  }

  function TypesOf(columns: Columns): map<string, SqlType> { map c | c in columns :: columns[c].dataType }

  predicate Named(columns: Columns) { forall c :: c in columns ==> columns[c].name == c }

  lemma ValuesAreNamed(columns: Columns)
    requires Named(columns)
    ensures NamesOf(ValuesInOrder(columns)) == Sorted(columns.Keys)
    ensures forall v :: v in ValuesInOrder(columns) ==> v.name in columns && v == columns[v.name]
  {
    var keys, values := Sorted(columns.Keys), ValuesInOrder(columns);
    forall i | 0 <= i < |keys| ensures values[i].name == keys[i] && keys[i] in columns {
      assert keys[i] in keys;
    }
  }

  /** The importer's columns, by name, are the verifier's order, and each is the plan's own column. */
  lemma OrderedColumnsAgree(columns: Columns)
    requires Named(columns)
    ensures NamesOf(OrderedColumns(columns)) == OrderedNames(TypesOf(columns))
    ensures forall v :: v in OrderedColumns(columns) ==> v.name in columns && v == columns[v.name]
  {
    ValuesAreNamed(columns);
    SortAgrees(ValuesInOrder(columns));
    assert TypesOf(columns).Keys == columns.Keys;
  }
}
