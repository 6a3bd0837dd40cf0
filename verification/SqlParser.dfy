/** The statements of an import script, read from tokens. */
module SqlParser {
  import opened Wrappers
  import opened Neo4jCsv
  import opened SqlLexer

  datatype Value = Null | Int(number: int) | Bool(flag: bool) | Str(text: string)

  datatype ColDef = ColDef(name: string, dataType: SqlType, notNull: bool)

  datatype Stmt =
    | Begin
    | CreateTable(table: string, defs: seq<ColDef>)
    | Insert(table: string, names: seq<string>, values: seq<Value>)
    | NodeLabel(name: string, table: string)
    | EdgeLabel(name: string, table: string, source: string, target: string)
    | Commit

  datatype Parsed<T> = Parsed(value: T, rest: seq<Token>)

  function ParseType(t: Token): Option<SqlType> {
    if t == Kw(KBigint) then Some(BIGINT)
    else if t == Kw(KDouble) then Some(DOUBLE)
    else if t == Kw(KBoolean) then Some(BOOLEAN)
    else if t == Kw(KText) then Some(TEXT)
    else None
  }

  function ParseDef(ts: seq<Token>): (r: Result<Parsed<ColDef>>)
    ensures r.Ok? ==> |r.value.rest| < |ts|
  {
    if |ts| < 2 || !ts[0].Name? || ParseType(ts[1]).None? then Err
    else
      var notNull := |ts| > 3 && ts[2] == Kw(KNot) && ts[3] == Kw(KNull);
      Ok(Parsed(ColDef(ts[0].name, ParseType(ts[1]).value, notNull), if notNull then ts[4..] else ts[2..]))
  }

  /** A list continues at a comma and ends at a closing parenthesis. */
  function ParseDefs(ts: seq<Token>): (r: Result<Parsed<seq<ColDef>>>)
    ensures r.Ok? ==> |r.value.rest| < |ts|
    decreases |ts|
  {
    match ParseDef(ts)
    case Err => Err
    case Ok(first) =>
      if first.rest == [] then Err
      else if first.rest[0] == Sym(')') then Ok(Parsed([first.value], first.rest[1..]))
      else if first.rest[0] != Sym(',') then Err
      else
        match ParseDefs(first.rest[1..])
        case Err => Err
        case Ok(more) => Ok(Parsed([first.value] + more.value, more.rest))
  }

  function ParseNames(ts: seq<Token>): (r: Result<Parsed<seq<string>>>)
    ensures r.Ok? ==> |r.value.rest| < |ts|
    decreases |ts|
  {
    if |ts| < 2 || !ts[0].Name? then Err
    else if ts[1] == Sym(')') then Ok(Parsed([ts[0].name], ts[2..]))
    else if ts[1] != Sym(',') then Err
    else
      match ParseNames(ts[2..])
      case Err => Err
      case Ok(more) => Ok(Parsed([ts[0].name] + more.value, more.rest))
  }

  function ParseValue(ts: seq<Token>): (r: Result<Parsed<Value>>)
    ensures r.Ok? ==> |r.value.rest| < |ts|
  {
    if ts == [] then Err
    else
      match ts[0]
      case Kw(KNull) => Ok(Parsed(Null, ts[1..]))
      case Kw(KTrue) => Ok(Parsed(Bool(true), ts[1..]))
      case Kw(KFalse) => Ok(Parsed(Bool(false), ts[1..]))
      case Quote(value) => Ok(Parsed(Str(value), ts[1..]))
      case Num(n) => Ok(Parsed(Int(n), ts[1..]))
      case Sym('-') => if |ts| > 1 && ts[1].Num? then Ok(Parsed(Int(0 - ts[1].number), ts[2..])) else Err
      case Sym('+') => if |ts| > 1 && ts[1].Num? then Ok(Parsed(Int(ts[1].number), ts[2..])) else Err
      case _ => Err
  }

  function ParseValues(ts: seq<Token>): (r: Result<Parsed<seq<Value>>>)
    ensures r.Ok? ==> |r.value.rest| < |ts|
    decreases |ts|
  {
    match ParseValue(ts)
    case Err => Err
    case Ok(first) =>
      if first.rest == [] then Err
      else if first.rest[0] == Sym(')') then Ok(Parsed([first.value], first.rest[1..]))
      else if first.rest[0] != Sym(',') then Err
      else
        match ParseValues(first.rest[1..])
        case Err => Err
        case Ok(more) => Ok(Parsed([first.value] + more.value, more.rest))
  }

  /** The semicolon that ends a statement. */
  function Ended(stmt: Stmt, rest: seq<Token>): (r: Result<Parsed<Stmt>>)
    ensures r.Ok? ==> |r.value.rest| < |rest|
  {
    if rest != [] && rest[0] == Sym(';') then Ok(Parsed(stmt, rest[1..])) else Err
  }

  function ParseCreateTable(ts: seq<Token>): (r: Result<Parsed<Stmt>>)
    ensures r.Ok? ==> |r.value.rest| < |ts|
  {
    if |ts| < 2 || !ts[0].Name? || ts[1] != Sym('(') then Err
    else
      match ParseDefs(ts[2..])
      case Err => Err
      case Ok(defs) => Ended(CreateTable(ts[0].name, defs.value), defs.rest)
  }

  function ParseInsert(ts: seq<Token>): (r: Result<Parsed<Stmt>>)
    ensures r.Ok? ==> |r.value.rest| < |ts|
  {
    if |ts| < 2 || !ts[0].Name? || ts[1] != Sym('(') then Err
    else
      match ParseNames(ts[2..])
      case Err => Err
      case Ok(names) =>
        if |names.rest| < 2 || names.rest[0] != Kw(KValues) || names.rest[1] != Sym('(') then Err
        else
          match ParseValues(names.rest[2..])
          case Err => Err
          case Ok(values) => Ended(Insert(ts[0].name, names.value, values.value), values.rest)
  }

  function ParseNodeLabel(ts: seq<Token>): (r: Result<Parsed<Stmt>>)
    ensures r.Ok? ==> |r.value.rest| < |ts|
  {
    if |ts| < 3 || !ts[0].Name? || ts[1] != Kw(KOn) || !ts[2].Name? then Err
    else Ended(NodeLabel(ts[0].name, ts[2].name), ts[3..])
  }

  function ParseEdgeLabel(ts: seq<Token>): (r: Result<Parsed<Stmt>>)
    ensures r.Ok? ==> |r.value.rest| < |ts|
  {
    if |ts| < 7 || !ts[0].Name? || ts[1] != Kw(KOn) || !ts[2].Name? || ts[3] != Kw(KSource) || !ts[4].Name?
       || ts[5] != Kw(KTarget) || !ts[6].Name?
    then Err
    else Ended(EdgeLabel(ts[0].name, ts[2].name, ts[4].name, ts[6].name), ts[7..])
  }

  function ParseStmt(ts: seq<Token>): (r: Result<Parsed<Stmt>>)
    ensures r.Ok? ==> |r.value.rest| < |ts|
  {
    if |ts| < 3 then (if ts == [] then Err else ParseBare(ts))
    else if ts[0] == Kw(KCreate) && ts[1] == Kw(KTable) then ParseCreateTable(ts[2..])
    else if ts[0] == Kw(KInsert) && ts[1] == Kw(KInto) then ParseInsert(ts[2..])
    else if ts[0] == Kw(KCreate) && ts[1] == Kw(KNode) && ts[2] == Kw(KLabel) then ParseNodeLabel(ts[3..])
    else if ts[0] == Kw(KCreate) && ts[1] == Kw(KEdge) && ts[2] == Kw(KLabel) then ParseEdgeLabel(ts[3..])
    else ParseBare(ts)
  }

  function ParseBare(ts: seq<Token>): (r: Result<Parsed<Stmt>>)
    requires ts != []
    ensures r.Ok? ==> |r.value.rest| < |ts|
  {
    if ts[0] == Kw(KBegin) then Ended(Begin, ts[1..])
    else if ts[0] == Kw(KCommit) then Ended(Commit, ts[1..])
    else Err
  }

  function ParseScript(ts: seq<Token>): Result<seq<Stmt>>
    decreases |ts|
  {
    if ts == [] then Ok([])
    else
      match ParseStmt(ts)
      case Err => Err
      case Ok(first) =>
        match ParseScript(first.rest)
        case Err => Err
        case Ok(more) => Ok([first.value] + more)
  }

  /** A script as the engine reads it. */
  function ReadScript(sql: string): Result<seq<Stmt>> {
    match Tokens(sql)
    case Err => Err
    case Ok(tokens) => ParseScript(tokens)
  }
}
