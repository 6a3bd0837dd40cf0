/** The part of the engine's lexer (crates/aiondb-parser/src/lexer.rs) that import scripts use: white space,
    keywords, quoted identifiers, string literals, integers, signs and punctuation. Anything else, comments and
    prefixed strings included, is an error here. */
module SqlLexer {
  import opened Wrappers
  import opened Text
  import opened Numbers

  datatype Keyword =
    | KBegin | KCommit | KCreate | KTable | KInsert | KInto | KValues | KNode | KEdge | KLabel | KOn | KSource | KTarget
    | KNot | KNull | KTrue | KFalse | KBigint | KDouble | KBoolean | KText

  /** Words are classified after the text is cut into tokens. */
  datatype Token =
    | Kw(keyword: Keyword)
    | Bare(word: string)
    | Name(name: string)
    | Quote(value: string)
    | Num(number: nat)
    | Sym(c: char)

  function Lookup(word: string): Option<Keyword> {
    if word == "BEGIN" then Some(KBegin)
    else if word == "COMMIT" then Some(KCommit)
    else if word == "CREATE" then Some(KCreate)
    else if word == "TABLE" then Some(KTable)
    else if word == "INSERT" then Some(KInsert)
    else if word == "INTO" then Some(KInto)
    else if word == "VALUES" then Some(KValues)
    else if word == "NODE" then Some(KNode)
    else if word == "EDGE" then Some(KEdge)
    else if word == "LABEL" then Some(KLabel)
    else if word == "ON" then Some(KOn)
    else if word == "SOURCE" then Some(KSource)
    else if word == "TARGET" then Some(KTarget)
    else if word == "NOT" then Some(KNot)
    else if word == "NULL" then Some(KNull)
    else if word == "TRUE" then Some(KTrue)
    else if word == "FALSE" then Some(KFalse)
    else if word == "BIGINT" then Some(KBigint)
    else if word == "DOUBLE" then Some(KDouble)
    else if word == "BOOLEAN" then Some(KBoolean)
    else if word == "TEXT" then Some(KText)
    else None
  }

  /** Keywords in any case; other words fold to lower case. */
  function Classify(t: Token): Token {
    if !t.Bare? then t
    else
      var k := Lookup(ToUpper(t.word));
      if k.Some? then Kw(k.value) else Bare(ToLower(t.word))
  }

  function ClassifyAll(ts: seq<Token>): (r: seq<Token>) {
    seq(|ts|, i requires 0 <= i < |ts| => Classify(ts[i]))
  }

  predicate IsWordStart(c: char) { c == '_' || IsUpper(c) || IsLower(c) }

  predicate IsWordPart(c: char) { c == '_' || IsAlnum(c) }

  predicate IsSymbol(c: char) { c == ',' || c == '(' || c == ')' || c == ';' || c == '+' || c == '-' }

  function WordLength(s: string): (n: nat)
    ensures n <= |s|
  {
    if s == [] || !IsWordPart(s[0]) then 0 else 1 + WordLength(s[1..])
  }

  function DigitLength(s: string): (n: nat)
    ensures n <= |s|
  {
    if s == [] || !IsDigit(s[0]) then 0 else 1 + DigitLength(s[1..])
  }

  datatype Piece = Piece(value: string, rest: string)

  /** The contents of a quoted text up to its closing quote, doubled quotes standing for one. */
  function Unquote(s: string, q: char): (r: Result<Piece>)
    ensures r.Ok? ==> |r.value.rest| < |s|
    decreases |s|
  {
    if s == [] then Err
    else if s[0] != q then Push(s[0], Unquote(s[1..], q))
    else if |s| > 1 && s[1] == q then Push(q, Unquote(s[2..], q))
    else Ok(Piece("", s[1..]))
  }

  function Push(c: char, r: Result<Piece>): Result<Piece> {
    if r.Ok? then Ok(Piece([c] + r.value.value, r.value.rest)) else Err
  }

  /** The UTF-8 width of a character. */
  function Width(c: char): nat {
    if c < '\U{0080}' then 1 else if c < '\U{0800}' then 2 else if c < '\U{10000}' then 3 else 4
  }

  const MAX_IDENTIFIER := 63

  /** Characters go into an identifier while it holds fewer than 63 bytes; the others are dropped. */
  function Kept(name: string, used: nat): (r: string)
    ensures r <= name
  {
    if name == [] || used >= MAX_IDENTIFIER then "" else [name[0]] + Kept(name[1..], used + Width(name[0]))
  }

  /** Literals with nothing but white space between them are one literal. */
  function LexString(s: string): (r: Result<Piece>)
    ensures r.Ok? ==> |r.value.rest| < |s|
    decreases |s|
  {
    match Unquote(s, '\'')
    case Err => Err
    case Ok(first) =>
      var rest := TrimStart(first.rest);
      TrimStartShorter(first.rest);
      if rest == [] || rest[0] != '\'' then Ok(first)
      else
        match LexString(rest[1..])
        case Err => Err
        case Ok(more) => Ok(Piece(first.value + more.value, more.rest))
  }

  lemma {:induction false} TrimStartShorter(s: string)
    ensures |TrimStart(s)| <= |s|
  {
    if s != [] && IsSpace(s[0]) { TrimStartShorter(s[1..]); }
  }

  function Then(tokens: seq<Token>, r: Result<seq<Token>>): Result<seq<Token>> {
    if r.Ok? then Ok(tokens + r.value) else Err
  }

  /** The tokens of a text, words still unclassified. */
  function Lex(s: string): Result<seq<Token>>
    decreases |s|
  {
    if s == [] then Ok([])
    else if IsSpace(s[0]) then Lex(s[1..])
    else if s[0] == '"' then
      match Unquote(s[1..], '"')
      case Err => Err
      case Ok(p) => Then([Name(Kept(p.value, 0))], Lex(p.rest))
    else if s[0] == '\'' then
      match LexString(s[1..])
      case Err => Err
      case Ok(p) => Then([Quote(p.value)], Lex(p.rest))
    else if IsDigit(s[0]) then
      var n := DigitLength(s);
      if n < |s| && (IsWordPart(s[n]) || s[n] == '.') then Err
      else Then([Num(DigitsValue(s[..n]))], Lex(s[n..]))
    else if IsWordStart(s[0]) then
      var n := WordLength(s);
      if n < |s| && (s[n] == '\'' || s[n] == '"' || s[n] == '&') then Err
      else Then([Bare(s[..n])], Lex(s[n..]))
    else if s[0] == '-' && |s| > 1 && (s[1] == '-' || s[1] == '>' || s[1] == '|') then Err
    else if IsSymbol(s[0]) then Then([Sym(s[0])], Lex(s[1..]))
    else Err
  }

  function Tokens(sql: string): Result<seq<Token>> {
    var r := Lex(sql);
    if r.Ok? then Ok(ClassifyAll(r.value)) else Err
  }

  // ----- reading what was printed -----

  lemma ThenThen(a: seq<Token>, b: seq<Token>, r: Result<seq<Token>>)
    ensures Then(a, Then(b, r)) == Then(a + b, r)
  {
    if r.Ok? { assert a + (b + r.value) == (a + b) + r.value; }
  }

  lemma {:induction false} UnquoteDoubled(v: string, q: char, rest: string)
    requires rest == [] || rest[0] != q
    ensures Unquote(Doubled(v, q) + ([q] + rest), q) == Ok(Piece(v, rest))
    decreases |v|
  {
    var s := Doubled(v, q) + ([q] + rest);
    if v == [] {
      assert s == [q] + rest;
      assert s[1..] == rest;
    } else {
      UnquoteDoubled(v[1..], q, rest);
      var tail := Doubled(v[1..], q) + ([q] + rest);
      if v[0] == q {
        assert s == [q, q] + tail;
        assert s[2..] == tail;
      } else {
        assert s == [v[0]] + tail;
        assert s[1..] == tail;
      }
      assert [v[0]] + v[1..] == v;
    }
  }

  lemma LexNameAt(s: string, p: Piece)
    requires s != [] && s[0] == '"' && Unquote(s[1..], '"') == Ok(p)
    ensures Lex(s) == Then([Name(Kept(p.value, 0))], Lex(p.rest))
  {
  }

  lemma LexQuoteAt(s: string, p: Piece)
    requires s != [] && s[0] == '\'' && LexString(s[1..]) == Ok(p)
    ensures Lex(s) == Then([Quote(p.value)], Lex(p.rest))
  {
  }

  lemma Quoted(v: string, q: char, rest: string)
    ensures var s := [q] + Doubled(v, q) + [q] + rest; s[0] == q && s[1..] == Doubled(v, q) + ([q] + rest)
  {
  }

  /** A printed identifier is read as the name it was printed from, cut to what fits. */
  lemma LexName(name: string, rest: string)
    requires rest == [] || rest[0] != '"'
    ensures Lex("\"" + Doubled(name, '"') + "\"" + rest) == Then([Name(Kept(name, 0))], Lex(rest))
  {
    var s := "\"" + Doubled(name, '"') + "\"" + rest;
    Quoted(name, '"', rest);
    UnquoteDoubled(name, '"', rest);
    LexNameAt(s, Piece(name, rest));
  }

  lemma LexStringOne(s: string, p: Piece)
    requires Unquote(s, '\'') == Ok(p) && p.rest != [] && p.rest[0] != '\'' && !IsSpace(p.rest[0])
    ensures LexString(s) == Ok(p)
  {
    assert TrimStart(p.rest) == p.rest;
  }

  /** A printed string literal is read whole, whatever characters it holds. */
  lemma LexQuote(value: string, rest: string)
    requires rest != [] && rest[0] != '\'' && !IsSpace(rest[0])
    ensures Lex("'" + Doubled(value, '\'') + "'" + rest) == Then([Quote(value)], Lex(rest))
  {
    var s := "'" + Doubled(value, '\'') + "'" + rest;
    Quoted(value, '\'', rest);
    UnquoteDoubled(value, '\'', rest);
    LexStringOne(s[1..], Piece(value, rest));
    LexQuoteAt(s, Piece(value, rest));
  }

  lemma {:induction false} WordLengthIs(w: string, rest: string)
    requires (forall i :: 0 <= i < |w| ==> IsWordPart(w[i])) && (rest == [] || !IsWordPart(rest[0]))
    ensures WordLength(w + rest) == |w|
    decreases |w|
  {
    if w == [] {
      assert w + rest == rest;
    } else {
      WordLengthIs(w[1..], rest);
      assert (w + rest)[1..] == w[1..] + rest;
    }
  }

  ghost predicate UpperWord(w: string) { w != [] && forall i :: 0 <= i < |w| ==> IsUpper(w[i]) }

  /** What may follow a keyword. */
  predicate Ends(rest: string) {
    rest != [] && !IsWordPart(rest[0]) && rest[0] != '\'' && rest[0] != '"' && rest[0] != '&'
  }

  lemma LexWord(w: string, rest: string)
    requires UpperWord(w) && Ends(rest)
    ensures Lex(w + rest) == Then([Bare(w)], Lex(rest))
  {
    WordLengthIs(w, rest);
    var s := w + rest;
    assert s[..|w|] == w && s[|w|..] == rest && s[0] == w[0];
  }

  lemma LexSymbol(c: char, rest: string)
    requires IsSymbol(c) && c != '-'
    ensures Lex([c] + rest) == Then([Sym(c)], Lex(rest))
  {
    assert ([c] + rest)[1..] == rest;
  }

  lemma LexMinus(rest: string)
    requires rest != [] && IsDigit(rest[0])
    ensures Lex("-" + rest) == Then([Sym('-')], Lex(rest))
  {
    var s := "-" + rest;
    assert s[1..] == rest && s[1] == rest[0];
  }

  lemma {:induction false} DigitLengthIs(w: string, rest: string)
    requires (forall i :: 0 <= i < |w| ==> IsDigit(w[i])) && (rest == [] || !IsDigit(rest[0]))
    ensures DigitLength(w + rest) == |w|
    decreases |w|
  {
    if w == [] {
      assert w + rest == rest;
    } else {
      DigitLengthIs(w[1..], rest);
      assert (w + rest)[1..] == w[1..] + rest;
    }
  }

  lemma LexDigits(w: string, rest: string)
    requires w != [] && (forall i :: 0 <= i < |w| ==> IsDigit(w[i]))
    requires rest != [] && !IsWordPart(rest[0]) && rest[0] != '.'
    ensures Lex(w + rest) == Then([Num(DigitsValue(w))], Lex(rest))
  {
    DigitLengthIs(w, rest);
    var s := w + rest;
    assert s[..|w|] == w && s[|w|..] == rest && s[0] == w[0];
  }

  /** The length of a text in UTF-8. */
  function Bytes(s: string): nat { if s == [] then 0 else Width(s[0]) + Bytes(s[1..]) }

  /** All but the last character fit in 62 bytes. */
  predicate Fits(name: string) { name == [] || Bytes(name[..|name| - 1]) < MAX_IDENTIFIER }

  lemma {:induction false} KeptWhole(name: string, used: nat)
    ensures Kept(name, used) == name <==> name == [] || used + Bytes(name[..|name| - 1]) < MAX_IDENTIFIER
    decreases |name|
  {
    if name != [] {
      var front := name[..|name| - 1];
      if |name| == 1 {
        assert Kept(name, used) ==
               if used >= MAX_IDENTIFIER then "" else [name[0]] + Kept(name[1..], used + Width(name[0]));
      } else {
        KeptWhole(name[1..], used + Width(name[0]));
        assert front[0] == name[0] && front[1..] == name[1..][..|name[1..]| - 1];
        assert [name[0]] + name[1..] == name;
        if used < MAX_IDENTIFIER && Kept(name, used) == name {
          assert Kept(name, used)[1..] == Kept(name[1..], used + Width(name[0]));
        }
      }
    }
  }

  /** An identifier survives printing and reading exactly when it fits. */
  lemma NameSurvives(name: string)
    ensures Lex("\"" + Doubled(name, '"') + "\"") == Ok([Name(name)]) <==> Fits(name)
  {
    LexName(name, "");
    KeptWhole(name, 0);
    var s := "\"" + Doubled(name, '"') + "\"";
    assert s + "" == s;
    assert [Name(Kept(name, 0))] + [] == [Name(Kept(name, 0))];
    assert [Name(Kept(name, 0))][0] == Name(Kept(name, 0)) && [Name(name)][0] == Name(name);
  }
}
