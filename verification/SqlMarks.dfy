/** Printed text as a sequence of marks: what each stands for, and why reading the text gives the marks' tokens. */
module SqlMarks {
  import opened Wrappers
  import opened Text
  import opened Numbers
  import opened SqlLexer

  datatype Mark =
    | Word(w: string)
    | Ident(name: string)
    | Literal(value: string)
    | Digits(digits: string)
    | Punct(c: char)
    | Space(c: char)

  function MarkText(m: Mark): string {
    match m
    case Word(w) => w
    case Ident(name) => "\"" + Doubled(name, '"') + "\""
    case Literal(value) => "'" + Doubled(value, '\'') + "'"
    case Digits(digits) => digits
    case Punct(c) => [c]
    case Space(c) => [c]
  }

  function MarkTokens(m: Mark): seq<Token> {
    match m
    case Word(w) => [Bare(w)]
    case Ident(name) => [Name(name)]
    case Literal(value) => [Quote(value)]
    case Digits(digits) => [Num(DigitsValue(digits))]
    case Punct(c) => [Sym(c)]
    case Space(_) => []
  }

  ghost predicate MarkOk(m: Mark) {
    match m
    case Word(w) => UpperWord(w)
    case Ident(name) => Fits(name)
    case Literal(_) => true
    case Digits(digits) => digits != [] && forall i :: 0 <= i < |digits| ==> IsDigit(digits[i])
    case Punct(c) => IsSymbol(c)
    case Space(c) => c == ' ' || c == '\n'
  }

  /** Marks that cannot run into the next one. */
  predicate Follows(m: Mark, next: Mark) {
    match m
    case Word(_) => next.Punct? || next.Space?
    case Ident(_) => next.Punct? || next.Space?
    case Digits(_) => next.Punct? || next.Space?
    case Literal(_) => next.Punct?
    case Punct(c) => c != '-' || next.Digits?
    case Space(_) => true
  }

  function Head(ms: seq<Mark>, next: Mark): Mark { if ms == [] then next else ms[0] }

  ghost predicate Chain(ms: seq<Mark>, next: Mark) {
    ms != [] ==> MarkOk(ms[0]) && Follows(ms[0], Head(ms[1..], next)) && Chain(ms[1..], next)
  }

  function Print(ms: seq<Mark>): string { if ms == [] then "" else MarkText(ms[0]) + Print(ms[1..]) }

  function MarksTokens(ms: seq<Mark>): seq<Token> { if ms == [] then [] else MarkTokens(ms[0]) + MarksTokens(ms[1..]) }

  lemma {:induction false} PrintAppend(a: seq<Mark>, b: seq<Mark>)
    ensures Print(a + b) == Print(a) + Print(b)
    decreases |a|
  {
    if a == [] {
      assert a + b == b;
    } else {
      PrintAppend(a[1..], b);
      assert (a + b)[1..] == a[1..] + b && (a + b)[0] == a[0];
      Join3(MarkText(a[0]), Print(a[1..]), Print(b));
    }
  }

  lemma {:induction false} TokensAppend(a: seq<Mark>, b: seq<Mark>)
    ensures MarksTokens(a + b) == MarksTokens(a) + MarksTokens(b)
    decreases |a|
  {
    if a == [] {
      assert a + b == b;
    } else {
      TokensAppend(a[1..], b);
      assert (a + b)[1..] == a[1..] + b && (a + b)[0] == a[0];
      JoinTokens(MarkTokens(a[0]), MarksTokens(a[1..]), MarksTokens(b));
    }
  }

  lemma JoinTokens(a: seq<Token>, b: seq<Token>, c: seq<Token>)
    ensures (a + b) + c == a + (b + c)
  {
  }

  lemma {:induction false} ChainAppend(a: seq<Mark>, b: seq<Mark>, next: Mark)
    requires Chain(a, Head(b, next)) && Chain(b, next)
    ensures Chain(a + b, next)
    decreases |a|
  {
    if a == [] {
      assert a + b == b;
    } else {
      ChainAppend(a[1..], b, next);
      assert (a + b)[1..] == a[1..] + b;
    }
  }

  /** Any punctuation may follow what a comma may follow. */
  lemma {:induction false} ChainPunct(a: seq<Mark>, p: Mark, q: Mark)
    requires Chain(a, p) && p.Punct? && q.Punct?
    ensures Chain(a, q)
    decreases |a|
  {
    if a != [] { ChainPunct(a[1..], p, q); }
  }

  lemma MarkFirst(m: Mark)
    requires MarkOk(m)
    ensures MarkText(m) != []
    ensures m.Punct? ==> MarkText(m)[0] == m.c && IsSymbol(m.c)
    ensures m.Space? ==> MarkText(m)[0] == m.c && (m.c == ' ' || m.c == '\n')
    ensures m.Digits? ==> IsDigit(MarkText(m)[0])
  {
  }

  lemma PrintFirst(ms: seq<Mark>, rest: string)
    requires ms != [] && MarkOk(ms[0])
    ensures Print(ms) + rest != [] && (Print(ms) + rest)[0] == MarkText(ms[0])[0]
  {
    MarkFirst(ms[0]);
  }

  lemma LexIdent(name: string, rest: string)
    requires Fits(name) && (rest == [] || rest[0] != '"')
    ensures Lex("\"" + Doubled(name, '"') + "\"" + rest) == Then([Name(name)], Lex(rest))
  {
    LexName(name, rest);
    KeptWhole(name, 0);
  }

  lemma LexMark(m: Mark, next: Mark, rest: string)
    requires MarkOk(m) && MarkOk(next) && Follows(m, next) && rest != [] && rest[0] == MarkText(next)[0]
    ensures !m.Space? ==> Lex(MarkText(m) + rest) == Then(MarkTokens(m), Lex(rest))
  {
    MarkFirst(next);
    match m
    case Word(w) => LexWord(w, rest);
    case Ident(name) => LexIdent(name, rest);
    case Literal(value) => LexQuote(value, rest);
    case Digits(digits) => LexDigits(digits, rest);
    case Punct(c) => if c == '-' { LexMinus(rest); } else { LexSymbol(c, rest); }
    case Space(_) =>
  }

  lemma LexBlank(c: char, rest: string)
    requires c == ' ' || c == '\n'
    ensures Lex([c] + rest) == Then([], Lex(rest))
  {
    assert ([c] + rest)[1..] == rest;
    NoTokens(Lex(rest));
  }

  lemma NoTokens(r: Result<seq<Token>>)
    ensures Then([], r) == r
  {
    if r.Ok? { assert [] + r.value == r.value; }
  }

  lemma Join3(a: string, b: string, c: string)
    ensures (a + b) + c == a + (b + c)
  {
  }

  lemma LexTwo(s: string, t: string, u: string, a: seq<Token>, b: seq<Token>)
    requires Lex(s) == Then(a, Lex(t)) && Lex(t) == Then(b, Lex(u))
    ensures Lex(s) == Then(a + b, Lex(u))
  {
    ThenThen(a, b, Lex(u));
  }

  /** Text printed from marks that end in white space is read as the marks' tokens, whatever follows. */
  lemma {:induction false} LexMarks(ms: seq<Mark>, next: Mark, rest: string)
    requires Chain(ms, next) && (ms != [] ==> ms[|ms| - 1].Space?)
    ensures Lex(Print(ms) + rest) == Then(MarksTokens(ms), Lex(rest))
    decreases |ms|
  {
    if ms == [] {
      assert Print(ms) + rest == rest;
      NoTokens(Lex(rest));
    } else {
      var m, tail := ms[0], ms[1..];
      LexMarks(tail, next, rest);
      var others := Print(tail) + rest;
      Join3(MarkText(m), Print(tail), rest);
      if m.Space? {
        LexBlank(m.c, others);
      } else {
        PrintFirst(tail, rest);
        LexMark(m, tail[0], others);
      }
      LexTwo(Print(ms) + rest, others, rest, MarkTokens(m), MarksTokens(tail));
    }
  }
}
