/** Headers and rows of a Neo4j CSV export, as both the importer (xtask/src/neo4j_import.rs) and the
    verifier (xtask/src/neo4j_verify.rs) read them: the two files repeat this code word for word. */
module Neo4jCsv {
  import opened Wrappers
  import opened Text
  import opened Csv
  import opened Identifiers

  /** A file of the export: its name and its lines. */
  datatype CsvFile = CsvFile(name: string, lines: seq<string>)

  datatype SqlType = BIGINT | DOUBLE | BOOLEAN | TEXT

  datatype SqlColumn = SqlColumn(name: string, dataType: SqlType)

  type Row = map<string, string>

  // ----- headers -----

  datatype ColumnKind = IdColumn | LabelColumn | StartColumn | EndColumn | TypeColumn | Plain

  datatype Header = Header(
    columns: seq<string>, idAt: Option<nat>, labelAt: Option<nat>,
    startAt: Option<nat>, endAt: Option<nat>, typeAt: Option<nat>)

  function KindOf(column: string): ColumnKind {
    var name := ToUpper(Trim(column));
    if EndsWith(name, ":ID") then IdColumn
    else if EndsWith(name, ":LABEL") then LabelColumn
    else if EndsWith(name, ":START_ID") then StartColumn
    else if EndsWith(name, ":END_ID") then EndColumn
    else if EndsWith(name, ":TYPE") then TypeColumn
    else Plain
  }

  /** The last of the first n columns that is of the kind. */
  function LastOf(columns: seq<string>, kind: ColumnKind, n: nat): (r: Option<nat>)
    requires n <= |columns|
    ensures r.Some? ==> r.value < n && KindOf(columns[r.value]) == kind
    ensures forall i :: 0 <= i < n && KindOf(columns[i]) == kind ==> r.Some? && i <= r.value
  {
    if n == 0 then None
    else if KindOf(columns[n - 1]) == kind then Some(n - 1)
    else LastOf(columns, kind, n - 1)
  }

  function HeaderUpTo(columns: seq<string>, n: nat): Header
    requires n <= |columns|
  {
    Header(columns, LastOf(columns, IdColumn, n), LastOf(columns, LabelColumn, n),
           LastOf(columns, StartColumn, n), LastOf(columns, EndColumn, n), LastOf(columns, TypeColumn, n))
  }

  function HeaderOf(columns: seq<string>): Header { HeaderUpTo(columns, |columns|) }

  function ParseHeader(line: string): Result<Header> {
    match ParseLine(line)
    case Fields(columns) => Ok(HeaderOf(columns))
    case Unterminated => Err
  }

  /** A header's column numbers lie inside the header. */
  ghost predicate HeaderOk(h: Header) { h == HeaderOf(h.columns) }

  function Note(h: Header, kind: ColumnKind, i: nat): Header {
    match kind
    case IdColumn => h.(idAt := Some(i))
    case LabelColumn => h.(labelAt := Some(i))
    case StartColumn => h.(startAt := Some(i))
    case EndColumn => h.(endAt := Some(i))
    case TypeColumn => h.(typeAt := Some(i))
    case Plain => h
  }

  lemma NoteStep(columns: seq<string>, i: nat)
    requires i < |columns|
    ensures HeaderUpTo(columns, i + 1) == Note(HeaderUpTo(columns, i), KindOf(columns[i]), i)
  {
  }

  /** The position of the last column whose name, trimmed and in capitals, ends with the suffix. */
  predicate LastEnding(columns: seq<string>, suffix: string, at: Option<nat>) {
    match at
    case None => forall i :: 0 <= i < |columns| ==> !EndsWith(ToUpper(Trim(columns[i])), suffix)
    case Some(k) =>
      && k < |columns| && EndsWith(ToUpper(Trim(columns[k])), suffix)
      && forall i :: k < i < |columns| ==> !EndsWith(ToUpper(Trim(columns[i])), suffix)
  }

  predicate ReadAs(h: Header) {
    && LastEnding(h.columns, ":ID", h.idAt) && LastEnding(h.columns, ":LABEL", h.labelAt)
    && LastEnding(h.columns, ":START_ID", h.startAt) && LastEnding(h.columns, ":END_ID", h.endAt)
    && LastEnding(h.columns, ":TYPE", h.typeAt)
  }

  lemma EndsWithAt(name: string, suffix: string, i: nat)
    requires EndsWith(name, suffix) && i < |suffix|
    ensures name[|name| - |suffix| + i] == suffix[i]
  {
  }

  /** No name ends with two of the suffixes, so that their order does not matter. */
  lemma KindIs(column: string)
    ensures var name := ToUpper(Trim(column));
            && (KindOf(column) == IdColumn <==> EndsWith(name, ":ID"))
            && (KindOf(column) == LabelColumn <==> EndsWith(name, ":LABEL"))
            && (KindOf(column) == StartColumn <==> EndsWith(name, ":START_ID"))
            && (KindOf(column) == EndColumn <==> EndsWith(name, ":END_ID"))
            && (KindOf(column) == TypeColumn <==> EndsWith(name, ":TYPE"))
  {
    OneSuffix(ToUpper(Trim(column)));
  }

  lemma OneSuffix(name: string)
    ensures EndsWith(name, ":ID") ==> !EndsWith(name, ":START_ID") && !EndsWith(name, ":END_ID")
    ensures EndsWith(name, ":START_ID") ==> !EndsWith(name, ":END_ID")
    ensures EndsWith(name, ":ID") || EndsWith(name, ":START_ID") || EndsWith(name, ":END_ID") ==>
              name != [] && name[|name| - 1] == 'D'
    ensures EndsWith(name, ":LABEL") ==> name != [] && name[|name| - 1] == 'L'
    ensures EndsWith(name, ":TYPE") ==> name != [] && name[|name| - 1] == 'E'
  {
    var n := |name|;
    if EndsWith(name, ":ID") {
      EndsWithAt(name, ":ID", 0);
      EndsWithAt(name, ":ID", 2);
    }
    if EndsWith(name, ":START_ID") {
      EndsWithAt(name, ":START_ID", 5);
      EndsWithAt(name, ":START_ID", 6);
      EndsWithAt(name, ":START_ID", 8);
    }
    if EndsWith(name, ":END_ID") {
      EndsWithAt(name, ":END_ID", 3);
      EndsWithAt(name, ":END_ID", 4);
      EndsWithAt(name, ":END_ID", 6);
    }
    if EndsWith(name, ":LABEL") { EndsWithAt(name, ":LABEL", 5); }
    if EndsWith(name, ":TYPE") { EndsWithAt(name, ":TYPE", 4); }
  }

  lemma LastOfIs(columns: seq<string>, kind: ColumnKind, suffix: string)
    requires forall i :: 0 <= i < |columns| ==>
               (KindOf(columns[i]) == kind <==> EndsWith(ToUpper(Trim(columns[i])), suffix))
    ensures LastEnding(columns, suffix, LastOf(columns, kind, |columns|))
  {
  }

  /** A header's special columns are the last ones whose names end with their suffixes. */
  lemma HeaderReads(columns: seq<string>)
    ensures ReadAs(HeaderOf(columns))
  {
    forall i | 0 <= i < |columns|
      ensures KindOf(columns[i]) == IdColumn <==> EndsWith(ToUpper(Trim(columns[i])), ":ID")
      ensures KindOf(columns[i]) == LabelColumn <==> EndsWith(ToUpper(Trim(columns[i])), ":LABEL")
      ensures KindOf(columns[i]) == StartColumn <==> EndsWith(ToUpper(Trim(columns[i])), ":START_ID")
      ensures KindOf(columns[i]) == EndColumn <==> EndsWith(ToUpper(Trim(columns[i])), ":END_ID")
      ensures KindOf(columns[i]) == TypeColumn <==> EndsWith(ToUpper(Trim(columns[i])), ":TYPE")
    {
      KindIs(columns[i]);
    }
    LastOfIs(columns, IdColumn, ":ID");
    LastOfIs(columns, LabelColumn, ":LABEL");
    LastOfIs(columns, StartColumn, ":START_ID");
    LastOfIs(columns, EndColumn, ":END_ID");
    LastOfIs(columns, TypeColumn, ":TYPE");
  }

  /** The loop of `CsvHeader::parse`: a later column of a kind replaces an earlier one. */
  method ReadHeader(line: string) returns (r: Result<Header>)
    ensures r == ParseHeader(line)
    ensures r.Err? <==> QuoteCount(line) % 2 == 1
    ensures r.Ok? ==> ParseLine(line) == Fields(r.value.columns)
    ensures r.Ok? ==> LastEnding(r.value.columns, ":ID", r.value.idAt)
    ensures r.Ok? ==> LastEnding(r.value.columns, ":LABEL", r.value.labelAt)
    ensures r.Ok? ==> LastEnding(r.value.columns, ":START_ID", r.value.startAt)
    ensures r.Ok? ==> LastEnding(r.value.columns, ":END_ID", r.value.endAt)
    ensures r.Ok? ==> LastEnding(r.value.columns, ":TYPE", r.value.typeAt)
  {
    var parsed := ParseCsvLine(line);
    if parsed.Unterminated? {
      return Err;
    }
    var columns := parsed.fields;
    var h := Header(columns, None, None, None, None, None);
    for i := 0 to |columns|
      invariant h == HeaderUpTo(columns, i)
    {
      NoteStep(columns, i);
      h := Note(h, KindOf(columns[i]), i);
    }
    HeaderReads(columns);
    return Ok(h);
  }

  predicate IsMeta(column: string) {
    var name := ToUpper(Trim(column));
    || (name != [] && name[0] == ':')
    || EndsWith(name, ":ID") || EndsWith(name, ":LABEL") || EndsWith(name, ":START_ID")
    || EndsWith(name, ":END_ID") || EndsWith(name, ":TYPE")
  }

  /** Meta columns are the special ones and those without a name before the colon. */
  lemma MetaIs(column: string)
    ensures IsMeta(column) <==> KindOf(column) != Plain || (Trim(column) != [] && Trim(column)[0] == ':')
  {
    KindIs(column);
    var name := Trim(column);
    assert name != [] ==> ToUpper(name)[0] == Upper(name[0]);
  }

  function BeforeColon(s: string): string {
    if s == [] || s[0] == ':' then [] else [s[0]] + BeforeColon(s[1..])
  }

  function AfterColon(s: string): string {
    if s == [] then [] else if s[0] == ':' then s[1..] else AfterColon(s[1..])
  }

  function TypeOfHint(hint: string): SqlType {
    var h := ToLower(hint);
    if h == "int" || h == "long" then BIGINT
    else if h == "float" || h == "double" then DOUBLE
    else if h == "boolean" || h == "bool" then BOOLEAN
    else TEXT
  }

  /** The same word, whatever the case of its letters. */
  predicate SameWord(a: string, b: string) { |a| == |b| && forall i :: 0 <= i < |a| ==> Lower(a[i]) == Lower(b[i]) }

  lemma SameWordIs(h: string, w: string)
    requires forall i :: 0 <= i < |w| ==> IsLower(w[i])
    ensures SameWord(h, w) <==> ToLower(h) == w
  {
    if ToLower(h) == w {
      forall i | 0 <= i < |h| ensures Lower(h[i]) == Lower(w[i]) { assert ToLower(h)[i] == w[i]; }
    }
  }

  /** Which hint gives which type. */
  lemma HintTypes(h: string)
    ensures TypeOfHint(h) == BIGINT <==> SameWord(h, "int") || SameWord(h, "long")
    ensures TypeOfHint(h) == DOUBLE <==> SameWord(h, "float") || SameWord(h, "double")
    ensures TypeOfHint(h) == BOOLEAN <==> SameWord(h, "boolean") || SameWord(h, "bool")
  {
    SameWordIs(h, "int");
    SameWordIs(h, "long");
    SameWordIs(h, "float");
    SameWordIs(h, "double");
    SameWordIs(h, "boolean");
    SameWordIs(h, "bool");
    HintsDiffer();
  }

  lemma HintsDiffer()
    ensures "int" != "float" && "int" != "double" && "int" != "boolean" && "int" != "bool"
    ensures "long" != "float" && "long" != "double" && "long" != "boolean" && "long" != "bool"
    ensures "float" != "boolean" && "float" != "bool" && "double" != "boolean" && "double" != "bool"
  {
    assert "long"[0] != "bool"[0];
  }

  /** A raw column name is cut at its first colon. */
  lemma {:induction false} ColumnCut(name: string, hint: string)
    requires ':' !in name
    ensures ColumnOf(name + ":" + hint) == SqlColumn(Sanitize(name), TypeOfHint(hint))
    ensures ColumnOf(name) == SqlColumn(Sanitize(name), TEXT)
  {
    CutAtColon(name, hint);
    HintTypes([]);
  }

  lemma {:induction false} CutAtColon(name: string, hint: string)
    requires ':' !in name
    ensures BeforeColon(name + ":" + hint) == name && AfterColon(name + ":" + hint) == hint
    ensures BeforeColon(name) == name && AfterColon(name) == []
    decreases |name|
  {
    var s := name + ":" + hint;
    if name == [] {
      assert s[1..] == hint;
    } else {
      CutAtColon(name[1..], hint);
      assert s[1..] == name[1..] + ":" + hint;
    }
  }

  function ColumnOf(raw: string): SqlColumn {
    SqlColumn(Sanitize(BeforeColon(raw)), TypeOfHint(AfterColon(raw)))
  }

  // ----- rows -----

  function NonBlank(parts: seq<string>): seq<string> {
    if parts == [] then []
    else (if Trim(parts[0]) == [] then [] else [Trim(parts[0])]) + NonBlank(parts[1..])
  }

  function SplitMulti(value: string, sep: char): seq<string> { NonBlank(Split(value, sep)) }

  function SanitizeAll(labels: seq<string>): (r: seq<string>)
    ensures |r| == |labels|
    ensures forall i :: 0 <= i < |r| ==> r[i] == Sanitize(labels[i])
  {
    if labels == [] then [] else [Sanitize(labels[0])] + SanitizeAll(labels[1..])
  }

  /** The labels of a node row; a node without any is "unlabeled". */
  function RowLabels(h: Header, fields: seq<string>): (r: seq<string>)
    ensures r != []
  {
    var given := if h.labelAt.Some? && h.labelAt.value < |fields| then SplitMulti(fields[h.labelAt.value], ';') else [];
    SanitizeAll(if given == [] then ["unlabeled"] else given)
  }

  /** The first label known for a node id. */
  function FirstLabel(labels: map<string, seq<string>>, id: string): string {
    if id in labels && labels[id] != [] then labels[id][0] else "unlabeled"
  }

  /** A line with something on it becomes fields of the header's width, or is a failed row. */
  datatype CsvLine = Skip | Bad(reason: Reason) | Good(fields: seq<string>)

  datatype Reason = UnterminatedQuote | FieldCount | NoIdColumn | EmptyId | MissingColumn | EmptyEndpoint

  function ReadLine(h: Header, line: string): (r: CsvLine)
    ensures r.Good? ==> |r.fields| == |h.columns|
    ensures r.Bad? ==> r.reason == UnterminatedQuote || r.reason == FieldCount
  {
    if Trim(line) == [] then Skip
    else
      match ParseLine(line)
      case Unterminated => Bad(UnterminatedQuote)
      case Fields(fields) => if |fields| != |h.columns| then Bad(FieldCount) else Good(fields)
  }

  predicate IsRelationship(h: Header) { h.startAt.Some? && h.endAt.Some? }
}
