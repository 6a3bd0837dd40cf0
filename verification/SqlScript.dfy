/** Reading back the text of a printed script. */
module SqlScript {
  import opened Wrappers
  import opened Text
  import opened Numbers
  import opened Neo4jCsv
  import opened SqlText
  import opened SqlLexer
  import opened SqlMarks
  import opened SqlParser
  import opened SqlRoundTrip

  // ----- marks, their text and their tokens -----

  const ANY := Word("A")
  const COMMA := Punct(',')

  /** Marks that print as the text and are read as the tokens, whatever mark follows. */
  ghost predicate Means(ms: seq<Mark>, text: string, ts: seq<Token>) {
    Print(ms) == text && ClassifyAll(MarksTokens(ms)) == ts && Chain(ms, ANY)
  }

  /** The same for an item of a list, which punctuation follows. */
  ghost predicate ItemMeans(ms: seq<Mark>, text: string, ts: seq<Token>) {
    Print(ms) == text && ClassifyAll(MarksTokens(ms)) == ts && Chain(ms, COMMA)
  }

  lemma {:induction false} ChainAny(ms: seq<Mark>, next: Mark)
    requires Chain(ms, ANY)
    ensures Chain(ms, next)
    decreases |ms|
  {
    if ms != [] { ChainAny(ms[1..], next); }
  }

  lemma ClassifyAppend(a: seq<Token>, b: seq<Token>)
    ensures ClassifyAll(a + b) == ClassifyAll(a) + ClassifyAll(b)
  {
  }

  lemma MeansAppend(a: seq<Mark>, text: string, ts: seq<Token>, b: seq<Mark>, text': string, ts': seq<Token>)
    requires Means(a, text, ts) && Means(b, text', ts')
    ensures Means(a + b, text + text', ts + ts')
  {
    PrintAppend(a, b);
    TokensAppend(a, b);
    ClassifyAppend(MarksTokens(a), MarksTokens(b));
    ChainAny(a, Head(b, ANY));
    ChainAppend(a, b, ANY);
  }

  lemma OneMark(m: Mark)
    ensures Print([m]) == MarkText(m) && MarksTokens([m]) == MarkTokens(m)
    ensures MarkOk(m) ==> (Chain([m], ANY) <==> Follows(m, ANY)) && (Chain([m], COMMA) <==> Follows(m, COMMA))
  {
    assert Print([m]) == MarkText(m) + Print([]);
    assert MarksTokens([m]) == MarkTokens(m) + MarksTokens([]);
  }

  lemma TwoMarks(m: Mark, n: Mark)
    ensures Print([m, n]) == MarkText(m) + MarkText(n) && MarksTokens([m, n]) == MarkTokens(m) + MarkTokens(n)
    ensures MarkOk(m) && MarkOk(n) && Follows(m, n) ==>
              (Follows(n, ANY) ==> Chain([m, n], ANY)) && (Follows(n, COMMA) ==> Chain([m, n], COMMA))
  {
    assert [m, n][1..] == [n];
    OneMark(n);
  }

  lemma PunctMeans(c: char)
    requires IsSymbol(c) && c != '-'
    ensures Means([Punct(c)], [c], [Sym(c)])
  {
    OneMark(Punct(c));
  }

  lemma IdentMeans(name: string)
    requires Fits(name)
    ensures Means([Ident(name), Space(' ')], QuoteIdent(name) + " ", [Name(name)])
    ensures ItemMeans([Ident(name)], QuoteIdent(name), [Name(name)])
    ensures Means([Ident(name), Punct(';')], QuoteIdent(name) + ";", [Name(name), Sym(';')])
  {
    TwoMarks(Ident(name), Space(' '));
    TwoMarks(Ident(name), Punct(';'));
    OneMark(Ident(name));
  }

  lemma NewlineMeans()
    ensures Means([Space('\n')], "\n", [])
  {
    OneMark(Space('\n'));
  }

  // ----- keywords -----

  ghost predicate IsKeyword(w: string, k: Keyword) { UpperWord(w) && Lookup(w) == Some(k) }

  lemma ClassifyKeyword(w: string, k: Keyword)
    requires IsKeyword(w, k)
    ensures Classify(Bare(w)) == Kw(k)
  {
    assert ToUpper(w) == w;
  }

  lemma WordMeans(w: string, k: Keyword)
    requires IsKeyword(w, k)
    ensures Means([Word(w), Space(' ')], w + " ", [Kw(k)])
    ensures ItemMeans([Word(w)], w, [Kw(k)])
    ensures Means([Word(w), Punct(';')], w + ";", [Kw(k), Sym(';')])
  {
    ClassifyKeyword(w, k);
    TwoMarks(Word(w), Space(' '));
    TwoMarks(Word(w), Punct(';'));
    OneMark(Word(w));
  }

  lemma TwoWordsMean(v: string, j: Keyword, w: string, k: Keyword)
    requires IsKeyword(v, j) && IsKeyword(w, k)
    ensures Means([Word(v), Space(' ')] + [Word(w), Space(' ')], v + " " + (w + " "), [Kw(j), Kw(k)])
  {
    WordMeans(v, j);
    WordMeans(w, k);
    MeansAppend([Word(v), Space(' ')], v + " ", [Kw(j)], [Word(w), Space(' ')], w + " ", [Kw(k)]);
  }

  // ----- lists -----

  function ListMarks(items: seq<seq<Mark>>): seq<Mark>
    requires items != []
  {
    if |items| == 1 then items[0] + [Punct(')')]
    else items[0] + ([COMMA, Space(' ')] + ListMarks(items[1..]))
  }

  lemma ItemAppend(a: seq<Mark>, text: string, ts: seq<Token>, b: seq<Mark>, text': string, ts': seq<Token>)
    requires ItemMeans(a, text, ts) && Means(b, text', ts') && b != [] && b[0].Punct?
    ensures Means(a + b, text + text', ts + ts')
  {
    PrintAppend(a, b);
    TokensAppend(a, b);
    ClassifyAppend(MarksTokens(a), MarksTokens(b));
    ChainPunct(a, COMMA, b[0]);
    ChainAppend(a, b, ANY);
  }

  lemma CommaMeans()
    ensures Means([COMMA, Space(' ')], ", ", [Sym(',')])
  {
    TwoMarks(COMMA, Space(' '));
  }

  lemma {:induction false} ListMeans(items: seq<seq<Mark>>, texts: seq<string>, tokens: seq<seq<Token>>)
    requires items != [] && |items| == |texts| == |tokens|
    requires forall i :: 0 <= i < |items| ==> ItemMeans(items[i], texts[i], tokens[i])
    ensures Means(ListMarks(items), Join(texts, ", ") + ")", Commas(tokens) + CLOSE)
    decreases |items|
  {
    if |items| == 1 {
      PunctMeans(')');
      ItemAppend(items[0], texts[0], tokens[0], [Punct(')')], ")", CLOSE);
    } else {
      ListMeans(items[1..], texts[1..], tokens[1..]);
      var text, ts := Join(texts[1..], ", ") + ")", Commas(tokens[1..]) + CLOSE;
      CommaMeans();
      MeansAppend([COMMA, Space(' ')], ", ", [Sym(',')], ListMarks(items[1..]), text, ts);
      ItemAppend(items[0], texts[0], tokens[0], [COMMA, Space(' ')] + ListMarks(items[1..]), ", " + text,
                 [Sym(',')] + ts);
      ListShape(texts[0], Join(texts[1..], ", "), tokens[0], Commas(tokens[1..]));
    }
  }

  lemma ListShape(a: string, b: string, s: seq<Token>, t: seq<Token>)
    ensures a + (", " + (b + ")")) == (a + ", " + b) + ")"
    ensures s + ([Sym(',')] + (t + CLOSE)) == (s + ([Sym(',')] + t)) + CLOSE
  {
  }

  // ----- items -----

  function DefMarks(col: SqlColumn): seq<Mark> {
    [Ident(col.name), Space(' ')] +
    if NotNull(col.name) then
      [Word(TypeText(col.dataType)), Space(' ')] + ([Word("NOT"), Space(' ')] + [Word("NULL")])
    else [Word(TypeText(col.dataType))]
  }

  lemma OpenItem(a: seq<Mark>, text: string, ts: seq<Token>, b: seq<Mark>, text': string, ts': seq<Token>)
    requires Means(a, text, ts) && ItemMeans(b, text', ts')
    ensures ItemMeans(a + b, text + text', ts + ts')
  {
    PrintAppend(a, b);
    TokensAppend(a, b);
    ClassifyAppend(MarksTokens(a), MarksTokens(b));
    ChainAny(a, Head(b, COMMA));
    ChainAppend(a, b, COMMA);
  }

  lemma TypeWord(t: SqlType)
    ensures IsKeyword(TypeText(t), TypeKeyword(t))
  {
  }

  lemma TruthWords()
    ensures IsKeyword("NULL", KNull) && IsKeyword("TRUE", KTrue) && IsKeyword("FALSE", KFalse)
  {
  }

  lemma NotWord()
    ensures IsKeyword("NOT", KNot) && "NOT" + " " + "NULL" == "NOT NULL"
  {
  }

  lemma NotNullMeans()
    ensures ItemMeans([Word("NOT"), Space(' ')] + [Word("NULL")], "NOT NULL", [Kw(KNot), Kw(KNull)])
  {
    NotWord();
    TruthWords();
    WordMeans("NOT", KNot);
    WordMeans("NULL", KNull);
    OpenItem([Word("NOT"), Space(' ')], "NOT" + " ", [Kw(KNot)], [Word("NULL")], "NULL", [Kw(KNull)]);
  }

  lemma TypeNotNull(w: string, k: Keyword)
    requires IsKeyword(w, k)
    ensures ItemMeans([Word(w), Space(' ')] + ([Word("NOT"), Space(' ')] + [Word("NULL")]),
                      w + (" " + "NOT NULL"), [Kw(k)] + [Kw(KNot), Kw(KNull)])
  {
    WordMeans(w, k);
    NotNullMeans();
    OpenItem([Word(w), Space(' ')], w + " ", [Kw(k)], [Word("NOT"), Space(' ')] + [Word("NULL")], "NOT NULL",
             [Kw(KNot), Kw(KNull)]);
    Join3(w, " ", "NOT NULL");
  }

  lemma NameWith(name: string, ms: seq<Mark>, text: string, ts: seq<Token>)
    requires Fits(name) && ItemMeans(ms, text, ts)
    ensures ItemMeans([Ident(name), Space(' ')] + ms, QuoteIdent(name) + " " + text, [Name(name)] + ts)
  {
    IdentMeans(name);
    OpenItem([Ident(name), Space(' ')], QuoteIdent(name) + " ", [Name(name)], ms, text, ts);
  }

  lemma DefShape(q: string, w: string, name: string, k: Keyword)
    ensures q + " " + (w + (" " + "NOT NULL")) == q + " " + w + " NOT NULL"
    ensures q + " " + w + "" == q + " " + w
    ensures [Name(name)] + ([Kw(k)] + [Kw(KNot), Kw(KNull)]) == [Name(name), Kw(k)] + [Kw(KNot), Kw(KNull)]
    ensures [Name(name), Kw(k)] + [] == [Name(name)] + [Kw(k)]
  {
  }

  lemma DefMeans(col: SqlColumn)
    requires Fits(col.name)
    ensures ItemMeans(DefMarks(col), DefText(col), DefTokens(col))
  {
    var w, k := TypeText(col.dataType), TypeKeyword(col.dataType);
    TypeWord(col.dataType);
    DefShape(QuoteIdent(col.name), w, col.name, k);
    if NotNull(col.name) {
      TypeNotNull(w, k);
      NameWith(col.name, [Word(w), Space(' ')] + ([Word("NOT"), Space(' ')] + [Word("NULL")]),
               w + (" " + "NOT NULL"), [Kw(k)] + [Kw(KNot), Kw(KNull)]);
    } else {
      WordMeans(w, k);
      NameWith(col.name, [Word(w)], w, [Kw(k)]);
    }
  }

  function IntMarks(s: string): seq<Mark> { if Signed(s) then [Punct(s[0]), Digits(s[1..])] else [Digits(s)] }

  lemma IntMeans(s: string)
    requires ParseInt(s).Some?
    ensures ItemMeans(IntMarks(s), s, IntTokens(s))
  {
    if Signed(s) {
      TwoMarks(Punct(s[0]), Digits(s[1..]));
      assert [s[0]] + s[1..] == s;
    } else {
      OneMark(Digits(s));
    }
  }

  function CellMarks(cell: string, t: SqlType): seq<Mark>
    requires WellTyped(cell, t)
  {
    if Trim(cell) == [] then [Word("NULL")]
    else
      match t
      case BIGINT => IntMarks(Trim(cell))
      case BOOLEAN => if ToLower(cell) == "true" then [Word("TRUE")] else [Word("FALSE")]
      case TEXT => [Literal(cell)]
  }

  lemma TruthMeans()
    ensures ItemMeans([Word("NULL")], "NULL", [Kw(KNull)])
    ensures ItemMeans([Word("TRUE")], "TRUE", [Kw(KTrue)])
    ensures ItemMeans([Word("FALSE")], "FALSE", [Kw(KFalse)])
  {
    TruthWords();
    WordMeans("NULL", KNull);
    WordMeans("TRUE", KTrue);
    WordMeans("FALSE", KFalse);
  }

  lemma CellMeans(cell: string, t: SqlType)
    requires WellTyped(cell, t)
    ensures ItemMeans(CellMarks(cell, t), SqlLiteral(cell, t), CellTokens(cell, t))
  {
    TruthMeans();
    if Trim(cell) != [] {
      match t
      case BIGINT => IntMeans(Trim(cell));
      case BOOLEAN =>
      case TEXT => OneMark(Literal(cell));
    }
  }

  // ----- lines -----

  const FINISH := [Punct(';'), Space('\n')]

  lemma FinishMeans()
    ensures Means(FINISH, ";\n", END)
  {
    TwoMarks(Punct(';'), Space('\n'));
  }

  lemma FinishList(list: seq<Mark>, text: string, ts: seq<Token>)
    requires Means(list, text + ")", ts + CLOSE)
    ensures Means(list + FINISH, text + ");\n", ts + (CLOSE + END))
  {
    FinishMeans();
    MeansAppend(list, text + ")", ts + CLOSE, FINISH, ";\n", END);
    assert text + ")" + ";\n" == text + ");\n";
    assert (ts + CLOSE) + END == ts + (CLOSE + END);
  }

  function TableMarks(table: string, list: seq<Mark>): seq<Mark> { [Ident(table), Space(' ')] + ([Punct('(')] + list) }

  lemma TableMeans(table: string, list: seq<Mark>, text: string, ts: seq<Token>)
    requires Fits(table) && Means(list, text, ts)
    ensures Means(TableMarks(table, list), QuoteIdent(table) + (" (" + text), [Name(table), Sym('(')] + ts)
  {
    var q := QuoteIdent(table);
    IdentMeans(table);
    PunctMeans('(');
    MeansAppend([Punct('(')], "(", [Sym('(')], list, text, ts);
    MeansAppend([Ident(table), Space(' ')], q + " ", [Name(table)], [Punct('(')] + list, "(" + text, [Sym('(')] + ts);
    TableShape(q, text, table, ts);
  }

  lemma TableShape(q: string, text: string, table: string, ts: seq<Token>)
    ensures q + " " + ("(" + text) == q + (" (" + text)
    ensures [Name(table)] + ([Sym('(')] + ts) == [Name(table), Sym('(')] + ts
  {
  }

  function CreateMarks(table: string, columns: seq<SqlColumn>): seq<Mark>
    requires columns != []
  {
    ([Word("CREATE"), Space(' ')] + [Word("TABLE"), Space(' ')])
    + TableMarks(table, ListMarks(DefMarkItems(columns)) + FINISH)
  }

  function DefMarkItems(columns: seq<SqlColumn>): (r: seq<seq<Mark>>) {
    seq(|columns|, i requires 0 <= i < |columns| => DefMarks(columns[i]))
  }

  function NameMarkItems(columns: seq<SqlColumn>): (r: seq<seq<Mark>>) {
    seq(|columns|, i requires 0 <= i < |columns| => [Ident(columns[i].name)])
  }

  function CellMarkItems(columns: seq<SqlColumn>, row: Row): (r: seq<seq<Mark>>)
    requires RowOk(columns, row)
  {
    seq(|columns|, i requires 0 <= i < |columns| => CellMarks(Cell(row, columns[i].name), columns[i].dataType))
  }

  lemma DefListMeans(columns: seq<SqlColumn>)
    requires columns != [] && NamesFit(columns)
    ensures Means(ListMarks(DefMarkItems(columns)), Join(DefTexts(columns), ", ") + ")",
                  Commas(DefItems(columns)) + CLOSE)
  {
    var items, texts, tokens := DefMarkItems(columns), DefTexts(columns), DefItems(columns);
    forall i | 0 <= i < |items| ensures ItemMeans(items[i], texts[i], tokens[i]) { DefMeans(columns[i]); }
    ListMeans(items, texts, tokens);
  }

  lemma NameListMeans(columns: seq<SqlColumn>)
    requires columns != [] && NamesFit(columns)
    ensures Means(ListMarks(NameMarkItems(columns)), Join(NameTexts(columns), ", ") + ")",
                  Commas(NameItems(columns)) + CLOSE)
  {
    var items, texts, tokens := NameMarkItems(columns), NameTexts(columns), NameItems(columns);
    forall i | 0 <= i < |items| ensures ItemMeans(items[i], texts[i], tokens[i]) { IdentMeans(columns[i].name); }
    ListMeans(items, texts, tokens);
  }

  lemma CellListMeans(columns: seq<SqlColumn>, row: Row)
    requires columns != [] && RowOk(columns, row)
    ensures Means(ListMarks(CellMarkItems(columns, row)), Join(LiteralTexts(columns, row), ", ") + ")",
                  Commas(CellItems(columns, row)) + CLOSE)
  {
    var items, texts, tokens := CellMarkItems(columns, row), LiteralTexts(columns, row), CellItems(columns, row);
    forall i | 0 <= i < |items| ensures ItemMeans(items[i], texts[i], tokens[i]) {
      CellMeans(Cell(row, columns[i].name), columns[i].dataType);
    }
    ListMeans(items, texts, tokens);
  }

  lemma CreateHead()
    ensures Means([Word("CREATE"), Space(' ')] + [Word("TABLE"), Space(' ')], "CREATE TABLE ",
                  [Kw(KCreate), Kw(KTable)])
  {
    TwoWordsMean("CREATE", KCreate, "TABLE", KTable);
    assert "CREATE" + " " + ("TABLE" + " ") == "CREATE TABLE ";
  }

  lemma InsertHead()
    ensures Means([Word("INSERT"), Space(' ')] + [Word("INTO"), Space(' ')], "INSERT INTO ", [Kw(KInsert), Kw(KInto)])
  {
    TwoWordsMean("INSERT", KInsert, "INTO", KInto);
    assert "INSERT" + " " + ("INTO" + " ") == "INSERT INTO ";
  }

  lemma CreateShape(q: string, defs: string, table: string, items: seq<Token>)
    ensures "CREATE TABLE " + (q + (" (" + (defs + ");\n"))) == "CREATE TABLE " + q + " (" + defs + ");\n"
    ensures [Kw(KCreate), Kw(KTable)] + ([Name(table), Sym('(')] + (items + (CLOSE + END)))
         == [Kw(KCreate), Kw(KTable), Name(table), Sym('(')] + (items + (CLOSE + END))
  {
  }

  lemma CreateMeans(table: string, columns: seq<SqlColumn>)
    requires Fits(table) && columns != [] && NamesFit(columns)
    ensures Means(CreateMarks(table, columns), LineText(CreateLine(table, columns)),
                  LineTokens(CreateLine(table, columns)))
  {
    var defs, items := Join(DefTexts(columns), ", "), Commas(DefItems(columns));
    var list := ListMarks(DefMarkItems(columns));
    DefListMeans(columns);
    FinishList(list, defs, items);
    TableMeans(table, list + FINISH, defs + ");\n", items + (CLOSE + END));
    CreateHead();
    MeansAppend([Word("CREATE"), Space(' ')] + [Word("TABLE"), Space(' ')], "CREATE TABLE ", [Kw(KCreate), Kw(KTable)],
                TableMarks(table, list + FINISH), QuoteIdent(table) + (" (" + (defs + ");\n")),
                [Name(table), Sym('(')] + (items + (CLOSE + END)));
    CreateShape(QuoteIdent(table), defs, table, items);
  }

  function ValuesMarks(list: seq<Mark>): seq<Mark> {
    [Space(' ')] + ([Word("VALUES"), Space(' ')] + ([Punct('(')] + list))
  }

  lemma ValuesMeans(list: seq<Mark>, text: string, ts: seq<Token>)
    requires Means(list, text, ts)
    ensures Means(ValuesMarks(list), " VALUES (" + text, VALUES + ts)
  {
    PunctMeans('(');
    MeansAppend([Punct('(')], "(", [Sym('(')], list, text, ts);
    WordMeans("VALUES", KValues);
    MeansAppend([Word("VALUES"), Space(' ')], "VALUES" + " ", [Kw(KValues)], [Punct('(')] + list, "(" + text,
                [Sym('(')] + ts);
    BlankMeans();
    MeansAppend([Space(' ')], " ", [], [Word("VALUES"), Space(' ')] + ([Punct('(')] + list),
                "VALUES" + " " + ("(" + text), [Kw(KValues)] + ([Sym('(')] + ts));
    ValuesShape(text, ts);
  }

  lemma BlankMeans()
    ensures Means([Space(' ')], " ", [])
  {
    OneMark(Space(' '));
  }

  lemma ValuesShape(text: string, ts: seq<Token>)
    ensures " " + ("VALUES" + " " + ("(" + text)) == " VALUES (" + text
    ensures [] + ([Kw(KValues)] + ([Sym('(')] + ts)) == VALUES + ts
  {
  }

  function InsertMarks(table: string, columns: seq<SqlColumn>, row: Row): seq<Mark>
    requires columns != [] && RowOk(columns, row)
  {
    ([Word("INSERT"), Space(' ')] + [Word("INTO"), Space(' ')])
    + TableMarks(table,
                 ListMarks(NameMarkItems(columns)) + ValuesMarks(ListMarks(CellMarkItems(columns, row)) + FINISH))
  }

  lemma InsertText(q: string, names: string, values: string)
    ensures "INSERT INTO " + (q + (" (" + ((names + ")") + (" VALUES (" + (values + ");\n")))))
         == "INSERT INTO " + q + " (" + names + ") VALUES (" + values + ");\n"
  {
    var a := (names + ")") + (" VALUES (" + (values + ");\n"));
    assert a == names + ") VALUES (" + values + ");\n";
    assert "INSERT INTO " + (q + (" (" + a)) == "INSERT INTO " + q + " (" + a;
  }

  lemma InsertTokens(table: string, names: seq<Token>, values: seq<Token>)
    ensures [Kw(KInsert), Kw(KInto)] + ([Name(table), Sym('(')] + ((names + CLOSE) + (VALUES + values)))
         == [Kw(KInsert), Kw(KInto), Name(table), Sym('(')] + (names + (CLOSE + (VALUES + values)))
  {
  }

  lemma InsertMeans(table: string, columns: seq<SqlColumn>, row: Row)
    requires Fits(table) && columns != [] && NamesFit(columns) && RowOk(columns, row)
    ensures Means(InsertMarks(table, columns, row), LineText(InsertLine(table, columns, row)),
                  LineTokens(InsertLine(table, columns, row)))
  {
    var names, values := Join(NameTexts(columns), ", "), Join(LiteralTexts(columns, row), ", ");
    var nameItems, items := Commas(NameItems(columns)), Commas(CellItems(columns, row));
    var nameList, list := ListMarks(NameMarkItems(columns)), ListMarks(CellMarkItems(columns, row));
    CellListMeans(columns, row);
    FinishList(list, values, items);
    ValuesMeans(list + FINISH, values + ");\n", items + (CLOSE + END));
    NameListMeans(columns);
    var text, ts := " VALUES (" + (values + ");\n"), VALUES + (items + (CLOSE + END));
    MeansAppend(nameList, names + ")", nameItems + CLOSE, ValuesMarks(list + FINISH), text, ts);
    TableMeans(table, nameList + ValuesMarks(list + FINISH), (names + ")") + text, (nameItems + CLOSE) + ts);
    InsertHead();
    MeansAppend([Word("INSERT"), Space(' ')] + [Word("INTO"), Space(' ')], "INSERT INTO ", [Kw(KInsert), Kw(KInto)],
                TableMarks(table, nameList + ValuesMarks(list + FINISH)),
                QuoteIdent(table) + (" (" + ((names + ")") + text)),
                [Name(table), Sym('(')] + ((nameItems + CLOSE) + ts));
    InsertText(QuoteIdent(table), names, values);
    InsertTokens(table, nameItems, items + (CLOSE + END));
  }

  // ----- labels -----

  function LabelMarks(kind: string): seq<Mark> {
    [Word("CREATE"), Space(' ')] + ([Word(kind), Space(' ')] + [Word("LABEL"), Space(' ')])
  }

  lemma LabelHead(kind: string, k: Keyword)
    requires IsKeyword(kind, k)
    ensures Means(LabelMarks(kind), "CREATE " + (kind + " LABEL "), [Kw(KCreate), Kw(k), Kw(KLabel)])
  {
    TwoWordsMean(kind, k, "LABEL", KLabel);
    WordMeans("CREATE", KCreate);
    MeansAppend([Word("CREATE"), Space(' ')], "CREATE" + " ", [Kw(KCreate)],
                [Word(kind), Space(' ')] + [Word("LABEL"), Space(' ')], kind + " " + ("LABEL" + " "),
                [Kw(k), Kw(KLabel)]);
    LabelShape(kind);
  }

  lemma LabelShape(kind: string)
    ensures "CREATE" + " " + (kind + " " + ("LABEL" + " ")) == "CREATE " + (kind + " LABEL ")
  {
  }

  /** An identifier and the keyword after it. */
  function Linked(name: string, w: string): seq<Mark> { [Ident(name), Space(' ')] + [Word(w), Space(' ')] }

  lemma LinkedMeans(name: string, w: string, k: Keyword)
    requires Fits(name) && IsKeyword(w, k)
    ensures Means(Linked(name, w), QuoteIdent(name) + (" " + w + " "), [Name(name), Kw(k)])
  {
    IdentMeans(name);
    WordMeans(w, k);
    MeansAppend([Ident(name), Space(' ')], QuoteIdent(name) + " ", [Name(name)], [Word(w), Space(' ')], w + " ",
                [Kw(k)]);
    LinkedShape(QuoteIdent(name), w);
  }

  lemma LinkedShape(q: string, w: string)
    ensures q + " " + (w + " ") == q + (" " + w + " ")
  {
  }

  lemma LastMeans(name: string)
    requires Fits(name)
    ensures Means([Ident(name), Punct(';')] + [Space('\n')], QuoteIdent(name) + ";\n", [Name(name), Sym(';')])
  {
    IdentMeans(name);
    NewlineMeans();
    MeansAppend([Ident(name), Punct(';')], QuoteIdent(name) + ";", [Name(name), Sym(';')], [Space('\n')], "\n", []);
    assert QuoteIdent(name) + ";" + "\n" == QuoteIdent(name) + ";\n";
    assert [Name(name), Sym(';')] + [] == [Name(name), Sym(';')];
  }

  function NodeMarks(table: string): seq<Mark> {
    LabelMarks("NODE") + (Linked(table, "ON") + ([Ident(table), Punct(';')] + [Space('\n')]))
  }

  lemma NodeMeans(table: string)
    requires Fits(table)
    ensures Means(NodeMarks(table), LineText(NodeLine(table)), LineTokens(NodeLine(table)))
  {
    var q := QuoteIdent(table);
    LabelHead("NODE", KNode);
    LinkedMeans(table, "ON", KOn);
    LastMeans(table);
    MeansAppend(Linked(table, "ON"), q + (" " + "ON" + " "), [Name(table), Kw(KOn)],
                [Ident(table), Punct(';')] + [Space('\n')], q + ";\n", [Name(table), Sym(';')]);
    MeansAppend(LabelMarks("NODE"), "CREATE " + ("NODE" + " LABEL "), [Kw(KCreate), Kw(KNode), Kw(KLabel)],
                Linked(table, "ON") + ([Ident(table), Punct(';')] + [Space('\n')]),
                q + (" " + "ON" + " ") + (q + ";\n"), [Name(table), Kw(KOn)] + [Name(table), Sym(';')]);
    NodeShape(q, table);
  }

  lemma NodeShape(q: string, table: string)
    ensures "CREATE " + ("NODE" + " LABEL ") + (q + (" " + "ON" + " ") + (q + ";\n")) ==
            "CREATE NODE LABEL " + q + " ON " + q + ";\n"
    ensures [Kw(KCreate), Kw(KNode), Kw(KLabel)] + ([Name(table), Kw(KOn)] + [Name(table), Sym(';')])
         == [Kw(KCreate), Kw(KNode), Kw(KLabel), Name(table), Kw(KOn), Name(table), Sym(';')]
  {
    assert "CREATE " + ("NODE" + " LABEL ") == "CREATE NODE LABEL ";
    assert " " + "ON" + " " == " ON ";
  }

  function EndpointMarks(table: string, source: string, target: string): seq<Mark> {
    Linked(table, "SOURCE") + (Linked(source, "TARGET") + ([Ident(target), Punct(';')] + [Space('\n')]))
  }

  lemma EndpointsMean(table: string, source: string, target: string)
    requires Fits(table) && Fits(source) && Fits(target)
    ensures Means(EndpointMarks(table, source, target),
                  QuoteIdent(table) + (" " + "SOURCE" + " ")
                  + (QuoteIdent(source) + (" " + "TARGET" + " ") + (QuoteIdent(target) + ";\n")),
                  [Name(table), Kw(KSource)] + ([Name(source), Kw(KTarget)] + [Name(target), Sym(';')]))
  {
    LinkedMeans(table, "SOURCE", KSource);
    LinkedMeans(source, "TARGET", KTarget);
    LastMeans(target);
    MeansAppend(Linked(source, "TARGET"), QuoteIdent(source) + (" " + "TARGET" + " "), [Name(source), Kw(KTarget)],
                [Ident(target), Punct(';')] + [Space('\n')], QuoteIdent(target) + ";\n", [Name(target), Sym(';')]);
    MeansAppend(Linked(table, "SOURCE"), QuoteIdent(table) + (" " + "SOURCE" + " "), [Name(table), Kw(KSource)],
                Linked(source, "TARGET") + ([Ident(target), Punct(';')] + [Space('\n')]),
                QuoteIdent(source) + (" " + "TARGET" + " ") + (QuoteIdent(target) + ";\n"),
                [Name(source), Kw(KTarget)] + [Name(target), Sym(';')]);
  }

  function EdgeMarks(table: string, source: string, target: string): seq<Mark> {
    LabelMarks("EDGE") + (Linked(table, "ON") + EndpointMarks(table, source, target))
  }

  lemma EdgeShape(q: string, s: string, t: string, table: string, source: string, target: string)
    ensures "CREATE " + ("EDGE" + " LABEL ") + (q + (" " + "ON" + " ")
              + (q + (" " + "SOURCE" + " ") + (s + (" " + "TARGET" + " ") + (t + ";\n"))))
         == "CREATE EDGE LABEL " + q + " ON " + q + " SOURCE " + s + " TARGET " + t + ";\n"
    ensures [Kw(KCreate), Kw(KEdge), Kw(KLabel)] + ([Name(table), Kw(KOn)]
              + ([Name(table), Kw(KSource)] + ([Name(source), Kw(KTarget)] + [Name(target), Sym(';')])))
         == [Kw(KCreate), Kw(KEdge), Kw(KLabel), Name(table), Kw(KOn), Name(table), Kw(KSource), Name(source),
             Kw(KTarget), Name(target), Sym(';')]
  {
    assert "CREATE " + ("EDGE" + " LABEL ") == "CREATE EDGE LABEL ";
    assert " " + "ON" + " " == " ON ";
    assert " " + "SOURCE" + " " == " SOURCE ";
    assert " " + "TARGET" + " " == " TARGET ";
    var end := s + " TARGET " + (t + ";\n");
    assert end == s + " TARGET " + t + ";\n";
    assert q + " SOURCE " + end == q + " SOURCE " + s + " TARGET " + t + ";\n";
  }

  lemma EdgeOn(table: string, ends: seq<Mark>, text: string, ts: seq<Token>)
    requires Fits(table) && Means(ends, text, ts)
    ensures Means(LabelMarks("EDGE") + (Linked(table, "ON") + ends),
                  "CREATE " + ("EDGE" + " LABEL ") + (QuoteIdent(table) + (" " + "ON" + " ") + text),
                  [Kw(KCreate), Kw(KEdge), Kw(KLabel)] + ([Name(table), Kw(KOn)] + ts))
  {
    var q := QuoteIdent(table);
    LabelHead("EDGE", KEdge);
    LinkedMeans(table, "ON", KOn);
    MeansAppend(Linked(table, "ON"), q + (" " + "ON" + " "), [Name(table), Kw(KOn)], ends, text, ts);
    MeansAppend(LabelMarks("EDGE"), "CREATE " + ("EDGE" + " LABEL "), [Kw(KCreate), Kw(KEdge), Kw(KLabel)],
                Linked(table, "ON") + ends, q + (" " + "ON" + " ") + text, [Name(table), Kw(KOn)] + ts);
  }

  lemma EdgeMeans(table: string, source: string, target: string)
    requires Fits(table) && Fits(source) && Fits(target)
    ensures Means(EdgeMarks(table, source, target), LineText(EdgeLine(table, source, target)),
                  LineTokens(EdgeLine(table, source, target)))
  {
    var q, s, t := QuoteIdent(table), QuoteIdent(source), QuoteIdent(target);
    EndpointsMean(table, source, target);
    EdgeOn(table, EndpointMarks(table, source, target),
           q + (" " + "SOURCE" + " ") + (s + (" " + "TARGET" + " ") + (t + ";\n")),
           [Name(table), Kw(KSource)] + ([Name(source), Kw(KTarget)] + [Name(target), Sym(';')]));
    EdgeShape(q, s, t, table, source, target);
  }

  lemma BareMeans(w: string, k: Keyword)
    requires IsKeyword(w, k)
    ensures Means([Word(w), Punct(';')] + [Space('\n')], w + ";" + "\n", [Kw(k), Sym(';')])
  {
    WordMeans(w, k);
    NewlineMeans();
    MeansAppend([Word(w), Punct(';')], w + ";", [Kw(k), Sym(';')], [Space('\n')], "\n", []);
    assert [Kw(k), Sym(';')] + [] == [Kw(k), Sym(';')];
  }

  function LineMarks(line: Line): seq<Mark>
    requires LineOk(line)
  {
    match line
    case BeginLine => [Word("BEGIN"), Punct(';')] + [Space('\n')]
    case CreateLine(table, columns) => CreateMarks(table, columns)
    case InsertLine(table, columns, row) => InsertMarks(table, columns, row)
    case NodeLine(table) => NodeMarks(table)
    case EdgeLine(table, source, target) => EdgeMarks(table, source, target)
    case CommitLine => [Word("COMMIT"), Punct(';')] + [Space('\n')]
  }

  lemma LineMeans(line: Line)
    requires LineOk(line)
    ensures Means(LineMarks(line), LineText(line), LineTokens(line))
  {
    match line
    case BeginLine => BareMeans("BEGIN", KBegin); assert "BEGIN" + ";" + "\n" == "BEGIN;\n";
    case CreateLine(table, columns) => CreateMeans(table, columns);
    case InsertLine(table, columns, row) => InsertMeans(table, columns, row);
    case NodeLine(table) => NodeMeans(table);
    case EdgeLine(table, source, target) => EdgeMeans(table, source, target);
    case CommitLine => BareMeans("COMMIT", KCommit); assert "COMMIT" + ";" + "\n" == "COMMIT;\n";
  }

  lemma LineEndsInSpace(line: Line)
    requires LineOk(line)
    ensures var ms := LineMarks(line); ms != [] && ms[|ms| - 1].Space?
  {
  }

  // ----- scripts -----

  ghost predicate LinesOk(lines: seq<Line>) { forall i :: 0 <= i < |lines| ==> LineOk(lines[i]) }

  function Stmts(lines: seq<Line>): (r: seq<Stmt>)
    requires LinesOk(lines)
  {
    seq(|lines|, i requires 0 <= i < |lines| => LineStmt(lines[i]))
  }

  function AllTokens(lines: seq<Line>): seq<Token>
    requires LinesOk(lines)
  {
    if lines == [] then [] else LineTokens(lines[0]) + AllTokens(lines[1..])
  }

  /** A text whose tokens are known, after classification. */
  ghost predicate TokensAre(text: string, ts: seq<Token>) { Lex(text).Ok? && ClassifyAll(Lex(text).value) == ts }

  lemma TokensMore(ms: seq<Mark>, text: string, ts: seq<Token>, others: string, more: seq<Token>)
    requires Means(ms, text, ts) && ms != [] && ms[|ms| - 1].Space? && TokensAre(others, more)
    ensures TokensAre(text + others, ts + more)
  {
    LexMarks(ms, ANY, others);
    ClassifyAppend(MarksTokens(ms), Lex(others).value);
  }

  lemma {:induction false} TokensOfLines(lines: seq<Line>)
    requires LinesOk(lines)
    ensures TokensAre(LinesText(lines), AllTokens(lines))
    decreases |lines|
  {
    if lines != [] {
      TokensOfLines(lines[1..]);
      LineMeans(lines[0]);
      LineEndsInSpace(lines[0]);
      assert Texts(lines)[1..] == Texts(lines[1..]);
      TokensMore(LineMarks(lines[0]), LineText(lines[0]), LineTokens(lines[0]), LinesText(lines[1..]),
                 AllTokens(lines[1..]));
    }
  }

  lemma ParseOneMore(tokens: seq<Token>, stmt: Stmt, others: seq<Token>, more: seq<Stmt>)
    requires tokens != [] && ParseStmt(tokens + others) == Ok(Parsed(stmt, others)) && ParseScript(others) == Ok(more)
    ensures ParseScript(tokens + others) == Ok([stmt] + more)
  {
  }

  lemma {:induction false} ParseLines(lines: seq<Line>)
    requires LinesOk(lines)
    ensures ParseScript(AllTokens(lines)) == Ok(Stmts(lines))
    decreases |lines|
  {
    if lines != [] {
      ParseLines(lines[1..]);
      ParseLineBack(lines[0], AllTokens(lines[1..]));
      ParseOneMore(LineTokens(lines[0]), LineStmt(lines[0]), AllTokens(lines[1..]), Stmts(lines[1..]));
      assert Stmts(lines) == [LineStmt(lines[0])] + Stmts(lines[1..]);
    }
  }

  /** Whatever the cells hold, the engine reads a printed script as the statements it was printed from. */
  lemma ScriptRoundTrip(lines: seq<Line>)
    requires LinesOk(lines)
    ensures ReadScript(LinesText(lines)) == Ok(Stmts(lines))
  {
    TokensOfLines(lines);
    ParseLines(lines);
  }

  function TextValues(columns: seq<SqlColumn>, row: Row): (r: seq<Value>) {
    seq(|columns|, i requires 0 <= i < |columns| =>
      if Trim(Cell(row, columns[i].name)) == [] then Null else Str(Cell(row, columns[i].name)))
  }

  /** An INSERT into text columns is read with its table, its columns in order and one value for each: the cell
      unchanged, or NULL where it is blank or missing. */
  lemma TextInsertReadsBack(table: string, columns: seq<SqlColumn>, row: Row)
    requires Fits(table) && columns != [] && NamesFit(columns)
    requires forall i :: 0 <= i < |columns| ==> columns[i].dataType == TEXT
    ensures ReadScript(LineText(InsertLine(table, columns, row)))
         == Ok([Insert(table, ColumnNames(columns), TextValues(columns, row))])
  {
    var line := InsertLine(table, columns, row);
    ScriptRoundTrip([line]);
    LinesTextOne(line);
    assert RowValues(columns, row) == TextValues(columns, row);
    assert Stmts([line]) == [LineStmt(line)];
  }
}
