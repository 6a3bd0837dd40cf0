/** What the verifier's comparison can tell apart, short of checksum collisions: exactly when it pins a table down. */
module Neo4jParityExact {
  import opened Text
  import opened Numbers
  import opened Neo4jCsv
  import opened Neo4jColumns
  import opened Neo4jVerify
  import opened SqlText
  import opened SqlParser
  import opened SqlRoundTrip
  import opened SqlEngine
  import opened Neo4jExecution
  import opened RowCuts
  import opened Neo4jParity

  const NULL_TEXT: string := "null"

  // ----- one value -----

  /** The normalized texts of the values of a column other than TEXT. */
  predicate Readable(def: ColDef, x: string) {
    || (!def.notNull && x == NULL_TEXT)
    || match def.dataType
       case BIGINT => ParseInt(x).Some? && x == IntText(ParseInt(x).value)
       case BOOLEAN => x == "true" || x == "false"
       case _ => false
  }

  /** The value of a normalized text. */
  function ValueOf(def: ColDef, x: string): Value
    requires def.dataType != TEXT ==> Readable(def, x)
  {
    if def.dataType == TEXT then Str(x)
    else if x == NULL_TEXT then Null
    else if def.dataType == BIGINT then Int(if ParseInt(x).Some? then ParseInt(x).value else 0)
    else Bool(x == "true")
  }

  lemma IntTextIsPlain(n: int)
    ensures IntText(n) != NULL_TEXT && '|' !in IntText(n)
  {
    IntTextShape(n);
    assert NULL_TEXT[0] == 'n';
  }

  lemma ParsedFits(x: string)
    ensures ParseInt(x).Some? ==> I64_MIN <= ParseInt(x).value <= I64_MAX
  {
  }

  lemma ValueIsReadable(def: ColDef, v: Value)
    requires def.dataType != TEXT && ValueFits(v, def)
    ensures Readable(def, NormalizeValue(v)) && ValueOf(def, NormalizeValue(v)) == v
  {
    if v.Int? {
      ParseIntText(v.number);
      IntTextIsPlain(v.number);
    }
  }

  lemma ReadableIsValue(def: ColDef, x: string)
    requires def.dataType != TEXT ==> Readable(def, x)
    ensures ValueFits(ValueOf(def, x), def) && NormalizeValue(ValueOf(def, x)) == x
  {
    ParsedFits(x);
    if ParseInt(x).Some? { IntTextIsPlain(ParseInt(x).value); }
  }

  lemma ReadableIsPlain(def: ColDef, x: string)
    requires def.dataType != TEXT && Readable(def, x)
    ensures '|' !in x
  {
    if ParseInt(x).Some? { IntTextIsPlain(ParseInt(x).value); }
  }

  function FieldOf(def: ColDef): Field { if def.dataType == TEXT then Free else Atom(x => Readable(def, x)) }

  function FieldsOf(defs: seq<ColDef>): (r: seq<Field>) {
    seq(|defs|, i requires 0 <= i < |defs| => FieldOf(defs[i]))
  }

  lemma FieldsAreBarless(defs: seq<ColDef>)
    ensures Barless(FieldsOf(defs))
  {
    var fields := FieldsOf(defs);
    forall k, x | 0 <= k < |fields| && fields[k].Atom? && fields[k].takes(x) ensures '|' !in x {
      ReadableIsPlain(defs[k], x);
    }
  }

  // ----- one row -----

  /** A TEXT column that may be empty shows NULL and the text "null" alike. */
  predicate NullLike(def: ColDef, x: string) { def.dataType == TEXT && !def.notNull && x == NULL_TEXT }

  /** No cell can be mistaken for NULL or the other way round, and no column boundary can be shifted. */
  predicate Unambiguous(defs: seq<ColDef>, cells: seq<string>)
    requires |cells| == |defs|
  {
    !Shiftable(FieldsOf(defs), cells) && forall i :: 0 <= i < |cells| ==> !NullLike(defs[i], cells[i])
  }

  ghost predicate Pinned(defs: seq<ColDef>, row: seq<Value>) {
    forall other :: RowFits(other, defs) && ActualNorm(other) == ActualNorm(row) ==> other == row
  }

  lemma RowIsShaped(defs: seq<ColDef>, row: seq<Value>)
    requires RowFits(row, defs)
    ensures Shaped(FieldsOf(defs), ActualCells(row))
  {
    var fields, cells := FieldsOf(defs), ActualCells(row);
    forall k | 0 <= k < |cells| && fields[k].Atom? ensures fields[k].takes(cells[k]) {
      ValueIsReadable(defs[k], row[k]);
    }
  }

  function ValuesOf(defs: seq<ColDef>, cells: seq<string>): (r: seq<Value>)
    requires Shaped(FieldsOf(defs), cells)
  {
    seq(|cells|, k requires 0 <= k < |cells| =>
      assert FieldsOf(defs)[k].Atom? ==> FieldsOf(defs)[k].takes(cells[k]);
      ValueOf(defs[k], cells[k]))
  }

  lemma ShapedIsRow(defs: seq<ColDef>, cells: seq<string>)
    requires Shaped(FieldsOf(defs), cells)
    ensures RowFits(ValuesOf(defs, cells), defs) && ActualCells(ValuesOf(defs, cells)) == cells
  {
    var row := ValuesOf(defs, cells);
    forall k | 0 <= k < |cells| ensures ValueFits(row[k], defs[k]) && NormalizeValue(row[k]) == cells[k] {
      assert FieldsOf(defs)[k].Atom? ==> FieldsOf(defs)[k].takes(cells[k]);
      ReadableIsValue(defs[k], cells[k]);
    }
  }

  lemma SameCellsSameValue(def: ColDef, v: Value, w: Value)
    requires ValueFits(v, def) && ValueFits(w, def) && NormalizeValue(v) == NormalizeValue(w)
    requires !NullLike(def, NormalizeValue(v))
    ensures v == w
  {
    if def.dataType != TEXT {
      ValueIsReadable(def, v);
      ValueIsReadable(def, w);
    }
  }

  lemma UnambiguousIsPinned(defs: seq<ColDef>, row: seq<Value>, other: seq<Value>)
    requires RowFits(row, defs) && RowFits(other, defs) && Unambiguous(defs, ActualCells(row))
    requires ActualNorm(other) == ActualNorm(row)
    ensures other == row
  {
    FieldsAreBarless(defs);
    RowIsShaped(defs, row);
    RowIsShaped(defs, other);
    OneReading(FieldsOf(defs), ActualCells(row));
    forall k | 0 <= k < |row| ensures other[k] == row[k] {
      assert ActualCells(other)[k] == ActualCells(row)[k];
      SameCellsSameValue(defs[k], row[k], other[k]);
    }
  }

  /** NULL for the text "null", or the other way round. */
  function Confused(v: Value): Value { if v == Null then Str(NULL_TEXT) else Null }

  lemma NullLikeIsNotPinned(defs: seq<ColDef>, row: seq<Value>, k: nat) returns (other: seq<Value>)
    requires RowFits(row, defs) && k < |row| && NullLike(defs[k], NormalizeValue(row[k]))
    ensures RowFits(other, defs) && ActualNorm(other) == ActualNorm(row) && other != row
  {
    other := row[k := Confused(row[k])];
    assert ActualCells(other) == ActualCells(row);
  }

  lemma ShiftableIsNotPinned(defs: seq<ColDef>, row: seq<Value>) returns (other: seq<Value>)
    requires RowFits(row, defs) && Shiftable(FieldsOf(defs), ActualCells(row))
    ensures RowFits(other, defs) && ActualNorm(other) == ActualNorm(row) && other != row
  {
    FieldsAreBarless(defs);
    RowIsShaped(defs, row);
    OneReading(FieldsOf(defs), ActualCells(row));
    var cells :| Shaped(FieldsOf(defs), cells) && Join(cells, "|") == Join(ActualCells(row), "|")
                 && cells != ActualCells(row);
    other := ValuesOf(defs, cells);
    ShapedIsRow(defs, cells);
  }

  /** The normalized text of a row has one row of the column types behind it exactly when it is unambiguous. */
  lemma PinnedExactly(defs: seq<ColDef>, row: seq<Value>)
    requires RowFits(row, defs)
    ensures Pinned(defs, row) <==> Unambiguous(defs, ActualCells(row))
  {
    if Unambiguous(defs, ActualCells(row)) {
      forall other | RowFits(other, defs) && ActualNorm(other) == ActualNorm(row) ensures other == row {
        UnambiguousIsPinned(defs, row, other);
      }
    } else if Shiftable(FieldsOf(defs), ActualCells(row)) {
      var other := ShiftableIsNotPinned(defs, row);
    } else {
      var k :| 0 <= k < |row| && NullLike(defs[k], ActualCells(row)[k]);
      var other := NullLikeIsNotPinned(defs, row, k);
    }
  }

  // ----- one table -----

  function TableDefs(types: Types): (r: seq<ColDef>)
    ensures |r| == |OrderedNames(types)|
  {
    NamesInTypes(types);
    var names := OrderedNames(types);
    seq(|names|, i requires 0 <= i < |names| => ColDef(names[i], types[names[i]], NotNull(names[i])))
  }

  /** Cells that a table of these types can hold. */
  predicate CellsFit(types: Types, row: Row) {
    forall c :: c in types ==> WellTyped(Cell(row, c), types[c]) && (NotNull(c) ==> Trim(Cell(row, c)) != [])
  }

  predicate AllFit(types: Types, rows: seq<Row>) { forall i :: 0 <= i < |rows| ==> CellsFit(types, rows[i]) }

  lemma AllFittingComparable(types: Types, rows: seq<Row>)
    requires AllFit(types, rows)
    ensures AllComparable(types, rows)
  {
    forall i | 0 <= i < |rows| ensures Comparable(types, rows[i]) { WellTypedIsComparable(types, rows[i]); }
  }

  /** The values a correct import stores for a row. */
  function StoredRow(types: Types, row: Row): (r: seq<Value>)
    requires CellsFit(types, row)
  {
    NamesInTypes(types);
    var names := OrderedNames(types);
    seq(|names|, i requires 0 <= i < |names| =>
      assert WellTyped(Cell(row, names[i]), types[names[i]]);
      CellValue(Cell(row, names[i]), types[names[i]]))
  }

  function StoredRows(types: Types, rows: seq<Row>): (r: seq<seq<Value>>)
    requires AllFit(types, rows)
  {
    seq(|rows|, i requires 0 <= i < |rows| => StoredRow(types, rows[i]))
  }

  /** The normalized cells of an expected row. */
  function NormalCells(types: Types, row: Row): (r: seq<string>)
    requires Comparable(types, row)
    ensures |r| == |OrderedNames(types)|
  {
    NamesInTypes(types);
    ExpectedCells(types, OrderedNames(types), row)
  }

  lemma StoredRowIs(types: Types, row: Row)
    requires CellsFit(types, row)
    ensures Comparable(types, row) && RowFits(StoredRow(types, row), TableDefs(types))
    ensures ActualCells(StoredRow(types, row)) == NormalCells(types, row)
    ensures ActualNorm(StoredRow(types, row)) == ExpectedNorm(types, row)
  {
    var names, stored, defs := OrderedNames(types), StoredRow(types, row), TableDefs(types);
    WellTypedIsComparable(types, row);
    NamesInTypes(types);
    forall i | 0 <= i < |names|
      ensures ValueFits(stored[i], defs[i]) && NormalizeValue(stored[i]) == NormalCells(types, row)[i]
    {
      var col := SqlColumn(names[i], types[names[i]]);
      assert WellTyped(Cell(row, names[i]), types[names[i]]);
      CellValueFits(col, Cell(row, names[i]));
      CellsNormalizeAlike(Cell(row, names[i]), types[names[i]]);
    }
  }

  lemma StoredNorms(types: Types, rows: seq<Row>)
    requires AllFit(types, rows)
    ensures AllComparable(types, rows) && ActualNorms(StoredRows(types, rows)) == ExpectedNorms(types, rows)
  {
    AllFittingComparable(types, rows);
    forall i | 0 <= i < |rows| ensures ActualNorm(StoredRow(types, rows[i])) == ExpectedNorm(types, rows[i]) {
      StoredRowIs(types, rows[i]);
    }
  }

  ghost predicate AllTyped(defs: seq<ColDef>, rows: seq<seq<Value>>) {
    forall i :: 0 <= i < |rows| ==> RowFits(rows[i], defs)
  }

  lemma StoredTyped(types: Types, rows: seq<Row>)
    requires AllFit(types, rows)
    ensures AllTyped(TableDefs(types), StoredRows(types, rows))
  {
    forall i | 0 <= i < |rows| ensures RowFits(StoredRow(types, rows[i]), TableDefs(types)) {
      StoredRowIs(types, rows[i]);
    }
  }

  // ----- counting rows by their texts -----

  /** Where a row's text stands for nothing else, rows are counted by texts. */
  lemma {:induction false} CountByNorm(rows: seq<seq<Value>>, v: seq<Value>)
    requires forall i :: 0 <= i < |rows| && ActualNorm(rows[i]) == ActualNorm(v) ==> rows[i] == v
    ensures multiset(rows)[v] == multiset(ActualNorms(rows))[ActualNorm(v)]
    decreases |rows|
  {
    if rows != [] {
      var n := |rows| - 1;
      CountByNorm(rows[..n], v);
      assert rows == rows[..n] + [rows[n]];
      assert ActualNorms(rows) == ActualNorms(rows[..n]) + [ActualNorm(rows[n])];
    }
  }

  ghost predicate AllPinned(defs: seq<ColDef>, rows: seq<seq<Value>>) {
    forall i :: 0 <= i < |rows| ==> Pinned(defs, rows[i])
  }

  /** Typed rows with the same texts as often, over texts that pin their rows down, are the same rows as often. */
  lemma SameTextsSameRows(defs: seq<ColDef>, stored: seq<seq<Value>>, actual: seq<seq<Value>>)
    requires AllTyped(defs, stored) && AllTyped(defs, actual) && AllPinned(defs, stored)
    requires multiset(ActualNorms(actual)) == multiset(ActualNorms(stored))
    ensures multiset(actual) == multiset(stored)
  {
    forall v ensures multiset(actual)[v] == multiset(stored)[v] {
      if v in stored {
        PinnedCounts(defs, stored, actual, v);
      } else if v in actual {
        var w := PinnedFrom(stored, actual, v);
        PinnedHolds(defs, stored, w, v);
      }
    }
  }

  lemma PinnedHolds(defs: seq<ColDef>, stored: seq<seq<Value>>, w: seq<Value>, v: seq<Value>)
    requires AllPinned(defs, stored) && w in stored && RowFits(v, defs) && ActualNorm(v) == ActualNorm(w)
    ensures v == w
  {
    var i :| 0 <= i < |stored| && stored[i] == w;
    assert Pinned(defs, stored[i]);
  }

  lemma PinnedCounts(defs: seq<ColDef>, stored: seq<seq<Value>>, actual: seq<seq<Value>>, v: seq<Value>)
    requires AllTyped(defs, stored) && AllTyped(defs, actual) && AllPinned(defs, stored) && v in stored
    requires multiset(ActualNorms(actual)) == multiset(ActualNorms(stored))
    ensures multiset(actual)[v] == multiset(stored)[v]
  {
    forall i | 0 <= i < |stored| && ActualNorm(stored[i]) == ActualNorm(v) ensures stored[i] == v {
      PinnedHolds(defs, stored, v, stored[i]);
    }
    forall i | 0 <= i < |actual| && ActualNorm(actual[i]) == ActualNorm(v) ensures actual[i] == v {
      PinnedHolds(defs, stored, v, actual[i]);
    }
    CountByNorm(stored, v);
    CountByNorm(actual, v);
  }

  lemma PinnedFrom(stored: seq<seq<Value>>, actual: seq<seq<Value>>, v: seq<Value>) returns (w: seq<Value>)
    requires v in actual && multiset(ActualNorms(actual)) == multiset(ActualNorms(stored))
    ensures w in stored && ActualNorm(w) == ActualNorm(v)
  {
    var i :| 0 <= i < |actual| && actual[i] == v;
    assert ActualNorms(actual)[i] in multiset(ActualNorms(actual));
    assert ActualNorm(v) in multiset(ActualNorms(stored));
    var j :| 0 <= j < |stored| && ActualNorms(stored)[j] == ActualNorm(v);
    w := stored[j];
  }

  // ----- wrong imports that pass -----

  lemma ReplacedCount(rows: seq<seq<Value>>, j: nat, v: seq<Value>)
    requires j < |rows| && rows[j] != v
    ensures multiset(rows[j := v]) != multiset(rows)
  {
    assert multiset(rows[j := v]) == multiset(rows)[rows[j] := multiset(rows)[rows[j]] - 1][v := multiset(rows)[v] + 1];
    assert multiset(rows[j := v])[v] == multiset(rows)[v] + 1;
  }

  /** A row replaced by another of the same text. */
  lemma AmbiguousImpostor(defs: seq<ColDef>, stored: seq<seq<Value>>, i: nat) returns (actual: seq<seq<Value>>)
    requires AllTyped(defs, stored) && i < |stored| && !Pinned(defs, stored[i])
    ensures AllTyped(defs, actual) && ActualNorms(actual) == ActualNorms(stored) && multiset(actual) != multiset(stored)
  {
    var other :| RowFits(other, defs) && ActualNorm(other) == ActualNorm(stored[i]) && other != stored[i];
    actual := stored[i := other];
    ReplacedCount(stored, i, other);
  }

  /** One of two rows of equal text replaced by a row of another text that is also there. */
  lemma DuplicateImpostor(defs: seq<ColDef>, stored: seq<seq<Value>>) returns (actual: seq<seq<Value>>)
    requires AllTyped(defs, stored) && !NoDuplicates(ActualNorms(stored)) && |Distinct(ActualNorms(stored))| > 1
    ensures AllTyped(defs, actual) && CountAndSet(ActualNorms(actual), ActualNorms(stored))
    ensures multiset(actual) != multiset(stored)
  {
    var norms := ActualNorms(stored);
    var j, k := ReplaceableRow(norms);
    actual := stored[j := stored[k]];
    assert ActualNorms(actual) == norms[j := norms[k]];
    ReplacedCount(stored, j, stored[k]);
  }

  // ----- the exact condition -----

  /** What parity compares, short of collisions. */
  predicate SameCountAndSet(types: Types, expected: seq<Row>, actual: seq<seq<Value>>)
    requires AllComparable(types, expected)
  {
    CountAndSet(ActualNorms(actual), ExpectedNorms(types, expected))
  }

  /** Every table of the right types that passes holds exactly the rows it should, in some order. */
  ghost predicate ParityPins(types: Types, expected: seq<Row>)
    requires AllFit(types, expected) && AllComparable(types, expected)
  {
    forall actual :: AllTyped(TableDefs(types), actual) && SameCountAndSet(types, expected, actual) ==>
      multiset(actual) == multiset(StoredRows(types, expected))
  }

  /** The rows' texts are all different or all equal, and each is unambiguous. */
  predicate Telling(types: Types, expected: seq<Row>)
    requires AllComparable(types, expected)
  {
    var norms := ExpectedNorms(types, expected);
    && (NoDuplicates(norms) || |Distinct(norms)| <= 1)
    && forall i :: 0 <= i < |expected| ==> Unambiguous(TableDefs(types), NormalCells(types, expected[i]))
  }

  lemma StoredPinned(types: Types, expected: seq<Row>, i: nat)
    requires AllFit(types, expected) && i < |expected| && Comparable(types, expected[i])
    ensures Pinned(TableDefs(types), StoredRow(types, expected[i]))
       <==> Unambiguous(TableDefs(types), NormalCells(types, expected[i]))
  {
    StoredRowIs(types, expected[i]);
    PinnedExactly(TableDefs(types), StoredRow(types, expected[i]));
  }

  lemma TellingPins(types: Types, expected: seq<Row>, actual: seq<seq<Value>>)
    requires AllFit(types, expected) && AllComparable(types, expected) && Telling(types, expected)
    requires AllTyped(TableDefs(types), actual) && SameCountAndSet(types, expected, actual)
    ensures multiset(actual) == multiset(StoredRows(types, expected))
  {
    var stored := StoredRows(types, expected);
    StoredNorms(types, expected);
    StoredTyped(types, expected);
    PermutationWhenDistinct(ExpectedNorms(types, expected), ActualNorms(actual));
    forall i | 0 <= i < |stored| ensures Pinned(TableDefs(types), stored[i]) { StoredPinned(types, expected, i); }
    SameTextsSameRows(TableDefs(types), stored, actual);
  }

  /** Parity pins a table down exactly when the texts of its rows are all different or all equal and none of them is
      ambiguous; every other table has a wrong import that passes. */
  lemma ParityIsExact(types: Types, expected: seq<Row>)
    requires AllFit(types, expected)
    ensures AllComparable(types, expected)
    ensures ParityPins(types, expected) <==> Telling(types, expected)
    ensures forall actual :: SameCountAndSet(types, expected, actual) ==> ParityOk(types, expected, actual)
  {
    var defs, stored := TableDefs(types), StoredRows(types, expected);
    StoredNorms(types, expected);
    StoredTyped(types, expected);
    if Telling(types, expected) {
      forall actual | AllTyped(defs, actual) && SameCountAndSet(types, expected, actual)
        ensures multiset(actual) == multiset(stored)
      {
        TellingPins(types, expected, actual);
      }
    } else if i :| 0 <= i < |expected| && !Unambiguous(defs, NormalCells(types, expected[i])) {
      StoredPinned(types, expected, i);
      var actual := AmbiguousImpostor(defs, stored, i);
      assert SameCountAndSet(types, expected, actual);
    } else {
      var actual := DuplicateImpostor(defs, stored);
      assert SameCountAndSet(types, expected, actual);
    }
  }

  // ----- two tables it does not pin down -----

  lemma OneName(name: string, t: SqlType)
    ensures OrderedNames(map[name := t]) == [name]
  {
    OrderedNamesInOrder(map[name := t]);
    assert |{name}| == 1;
    var names := OrderedNames(map[name := t]);
    assert names[0] in names;
  }

  /** NULL passes for the text "null". */
  lemma NullPassesForText(name: string)
    requires !NotNull(name)
    ensures var types, expected := map[name := TEXT], [map[name := NULL_TEXT]];
            && AllFit(types, expected) && AllComparable(types, expected)
            && StoredRows(types, expected) == [[Str(NULL_TEXT)]] && ParityOk(types, expected, [[Null]])
  {
    var types, row := map[name := TEXT], map[name := NULL_TEXT];
    OneName(name, TEXT);
    assert Trim(NULL_TEXT) == NULL_TEXT by { TrimmedIsFixed(NULL_TEXT); }
    OneTextCell(types, row, name, NULL_TEXT);
    assert ActualCells([Null]) == ActualCells([Str(NULL_TEXT)]);
    OneRowPasses(types, row, [Null]);
  }

  /** A bar passes for the end of a cell: what follows a bar in the first cell may as well stand in the second. */
  lemma BarPassesForBoundary(a: string, b: string, c: string)
    requires Trim(c) != []
    ensures var types, expected := map["x" := TEXT, "y" := TEXT], [map["x" := a + "|" + b, "y" := c]];
            && AllFit(types, expected) && AllComparable(types, expected)
            && StoredRows(types, expected) == [[Str(a + "|" + b), Str(c)]]
            && ParityOk(types, expected, [[Str(a), Str(b + "|" + c)]])
  {
    var types, row := map["x" := TEXT, "y" := TEXT], map["x" := a + "|" + b, "y" := c];
    TwoNames();
    NotBlank(a + "|" + b, |a|);
    assert types.Keys == {"x", "y"} && Cell(row, "x") == a + "|" + b && Cell(row, "y") == c;
    TwoTextCells(types, row, "x", "y");
    SameText(a, b, c);
    OneRowPasses(types, row, [Str(a), Str(b + "|" + c)]);
  }

  lemma TextCell(types: Types, row: Row, i: nat)
    requires CellsFit(types, row) && i < |OrderedNames(types)| && OrderedNames(types)[i] in types
    requires types[OrderedNames(types)[i]] == TEXT && Trim(Cell(row, OrderedNames(types)[i])) != []
    ensures StoredRow(types, row)[i] == Str(Cell(row, OrderedNames(types)[i]))
  {
  }

  lemma OneTextCell(types: Types, row: Row, x: string, text: string)
    requires OrderedNames(types) == [x] && types.Keys == {x} && types[x] == TEXT
    requires Cell(row, x) == text && Trim(text) != []
    ensures CellsFit(types, row) && StoredRow(types, row) == [Str(text)]
  {
    TextCell(types, row, 0);
  }

  lemma TwoTextCells(types: Types, row: Row, x: string, y: string)
    requires OrderedNames(types) == [x, y] && types.Keys == {x, y} && types[x] == TEXT && types[y] == TEXT
    requires Trim(Cell(row, x)) != [] && Trim(Cell(row, y)) != []
    ensures CellsFit(types, row) && StoredRow(types, row) == [Str(Cell(row, x)), Str(Cell(row, y))]
  {
    TextCell(types, row, 0);
    TextCell(types, row, 1);
  }

  /** A row of the same text as the only expected one passes in its place. */
  lemma OneRowPasses(types: Types, row: Row, other: seq<Value>)
    requires CellsFit(types, row) && ActualNorm(other) == ActualNorm(StoredRow(types, row))
    ensures AllComparable(types, [row]) && ParityOk(types, [row], [other])
  {
    StoredNorms(types, [row]);
    assert ActualNorms([other]) == ActualNorms(StoredRows(types, [row]));
  }

  lemma JoinTwo(a: string, b: string)
    ensures Join([a, b], "|") == a + "|" + b
  {
    assert [a, b][1..] == [b];
  }

  lemma SameText(a: string, b: string, c: string)
    ensures ActualNorm([Str(a + "|" + b), Str(c)]) == ActualNorm([Str(a), Str(b + "|" + c)])
  {
    assert ActualCells([Str(a + "|" + b), Str(c)]) == [a + "|" + b, c];
    assert ActualCells([Str(a), Str(b + "|" + c)]) == [a, b + "|" + c];
    JoinTwo(a + "|" + b, c);
    JoinTwo(a, b + "|" + c);
    assert a + "|" + b + "|" + c == a + "|" + (b + "|" + c);
  }

  lemma TwoNames()
    ensures OrderedNames(map["x" := TEXT, "y" := TEXT]) == ["x", "y"]
  {
    var types := map["x" := TEXT, "y" := TEXT];
    OrderedNamesInOrder(types);
    assert types.Keys == {"x", "y"} && "x" != "y";
    var names := OrderedNames(types);
    assert names[0] in names && names[1] in names;
    assert Before(names[0], names[1]);
    assert !Before("y", "x") && !Before("x", "x") && !Before("y", "y");
  }
}
