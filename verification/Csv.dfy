/** One CSV line (`parse_csv_line`, the same text in xtask/src/neo4j_import.rs and
    xtask/src/neo4j_verify.rs). */
module Csv {
  import opened Text

  datatype Parsed = Fields(fields: seq<string>) | Unterminated

  /** The rest of the line, read with the quoting state, the field so far and the fields done. */
  function ParseRest(s: string, inQuotes: bool, current: string, done: seq<string>): Parsed
    decreases |s|
  {
    if s == [] then if inQuotes then Unterminated else Fields(done + [current])
    else if s[0] == '"' then
      if inQuotes && |s| > 1 && s[1] == '"' then ParseRest(s[2..], true, current + ['"'], done)
      else ParseRest(s[1..], !inQuotes, current, done)
    else if s[0] == ',' && !inQuotes then ParseRest(s[1..], false, [], done + [current])
    else ParseRest(s[1..], inQuotes, current + [s[0]], done)
  }

  function ParseLine(line: string): Parsed { ParseRest(line, false, [], []) }

  function QuoteCount(s: string): nat {
    if s == [] then 0 else (if s[0] == '"' then 1 else 0) + QuoteCount(s[1..])
  }

  /** The loop of the source: one character at a time with a look at the next. */
  method ParseCsvLine(line: string) returns (r: Parsed)
    ensures r == ParseLine(line)
    ensures r.Unterminated? <==> QuoteCount(line) % 2 == 1
  {
    var fields, current, inQuotes, i := [], [], false, 0;
    assert line[0..] == line;
    while i < |line|
      invariant 0 <= i <= |line|
      invariant ParseRest(line[i..], inQuotes, current, fields) == ParseLine(line)
    {
      var ch := line[i];
      assert line[i..][1..] == line[i + 1..];
      i := i + 1;
      if ch == '"' && inQuotes && i < |line| && line[i] == '"' {
        assert line[i - 1..][2..] == line[i + 1..];
        i := i + 1;
        current := current + ['"'];
      } else if ch == '"' {
        inQuotes := !inQuotes;
      } else if ch == ',' && !inQuotes {
        fields := fields + [current];
        current := [];
      } else {
        current := current + [ch];
      }
    }
    FailsOnOddQuotes(line, false, [], []);
    if inQuotes {
      return Unterminated;
    }
    return Fields(fields + [current]);
  }

  /** Reading fails exactly when the quotes still to come do not close the one that is open. */
  lemma {:induction false} FailsOnOddQuotes(s: string, inQuotes: bool, current: string, done: seq<string>)
    ensures ParseRest(s, inQuotes, current, done).Unterminated? <==>
            (QuoteCount(s) % 2 == 1) != inQuotes
    decreases |s|
  {
    if s == [] {
    } else if s[0] == '"' {
      if inQuotes && |s| > 1 && s[1] == '"' {
        assert s[1..][1..] == s[2..];
        FailsOnOddQuotes(s[2..], true, current + ['"'], done);
      } else {
        FailsOnOddQuotes(s[1..], !inQuotes, current, done);
      }
    } else if s[0] == ',' && !inQuotes {
      FailsOnOddQuotes(s[1..], false, [], done + [current]);
    } else {
      FailsOnOddQuotes(s[1..], inQuotes, current + [s[0]], done);
    }
  }

  // ----- round trip -----

  function Quoted(field: string): string { ['"'] + Doubled(field, '"') + ['"'] }

  /** A stretch of a field as it is written. */
  datatype Piece = Bare(text: string) | InQuotes(text: string)

  predicate PieceOk(p: Piece) { p.Bare? ==> p.text != [] && ',' !in p.text && '"' !in p.text }

  /** Bare stretches hold no comma and no quotation mark, and no two quoted ones meet. */
  predicate PiecesOk(ps: seq<Piece>) {
    && (forall i :: 0 <= i < |ps| ==> PieceOk(ps[i]))
    && (forall i :: 0 < i < |ps| ==> ps[i - 1].Bare? || ps[i].Bare?)
  }

  function PieceText(p: Piece): string { if p.Bare? then p.text else Quoted(p.text) }

  function Written(ps: seq<Piece>): string { if ps == [] then "" else PieceText(ps[0]) + Written(ps[1..]) }

  function Meant(ps: seq<Piece>): string { if ps == [] then "" else ps[0].text + Meant(ps[1..]) }

  /** How a field may be written: in quotes, bare if nothing in it needs quotes, as section 2 of RFC 4180 has it, or in
      stretches of both. */
  ghost predicate Writes(text: string, field: string) {
    exists ps :: PiecesOk(ps) && Written(ps) == text && Meant(ps) == field
  }

  lemma WritesWhole(field: string)
    ensures Writes(Quoted(field), field)
    ensures ',' !in field && '"' !in field ==> Writes(field, field)
  {
    OnePiece(InQuotes(field));
    if field == [] {
      assert Written([]) == field && Meant([]) == field && PiecesOk([]);
    } else if ',' !in field && '"' !in field {
      OnePiece(Bare(field));
    }
  }

  lemma OnePiece(p: Piece)
    requires PieceOk(p)
    ensures PiecesOk([p]) && Written([p]) == PieceText(p) && Meant([p]) == p.text
    ensures Writes(PieceText(p), p.text)
  {
    assert [p][1..] == [];
    assert Written([p]) == PieceText(p) + "" && Meant([p]) == p.text + "";
  }

  lemma {:induction false} ReadsQuoted(field: string, rest: string, current: string, done: seq<string>)
    requires rest != [] ==> rest[0] != '"'
    ensures ParseRest(Doubled(field, '"') + ['"'] + rest, true, current, done) ==
            ParseRest(rest, false, current + field, done)
    decreases |field|
  {
    var s := Doubled(field, '"') + ['"'] + rest;
    if field == [] {
      assert s == ['"'] + rest;
      assert current + field == current;
    } else if field[0] == '"' {
      assert s == ['"', '"'] + (Doubled(field[1..], '"') + ['"'] + rest);
      assert s[2..] == Doubled(field[1..], '"') + ['"'] + rest;
      ReadsQuoted(field[1..], rest, current + ['"'], done);
      assert current + ['"'] + field[1..] == current + field;
    } else {
      assert s == [field[0]] + (Doubled(field[1..], '"') + ['"'] + rest);
      assert s[1..] == Doubled(field[1..], '"') + ['"'] + rest;
      ReadsQuoted(field[1..], rest, current + [field[0]], done);
      assert current + [field[0]] + field[1..] == current + field;
    }
  }

  lemma {:induction false} ReadsBare(field: string, rest: string, current: string, done: seq<string>)
    requires ',' !in field && '"' !in field
    ensures ParseRest(field + rest, false, current, done) == ParseRest(rest, false, current + field, done)
    decreases |field|
  {
    if field == [] {
      assert field + rest == rest && current + field == current;
    } else {
      assert (field + rest)[0] == field[0] && (field + rest)[1..] == field[1..] + rest;
      ReadsBare(field[1..], rest, current + [field[0]], done);
      assert current + [field[0]] + field[1..] == current + field;
    }
  }

  lemma ReadsPiece(p: Piece, rest: string, current: string, done: seq<string>)
    requires PieceOk(p) && (p.InQuotes? && rest != [] ==> rest[0] != '"')
    ensures ParseRest(PieceText(p) + rest, false, current, done) == ParseRest(rest, false, current + p.text, done)
  {
    if p.InQuotes? {
      var tail := Doubled(p.text, '"') + ['"'] + rest;
      assert PieceText(p) + rest == ['"'] + tail;
      assert (PieceText(p) + rest)[1..] == tail;
      ReadsQuoted(p.text, rest, current, done);
    } else {
      ReadsBare(p.text, rest, current, done);
    }
  }

  lemma {:induction false} ReadsPieces(ps: seq<Piece>, rest: string, current: string, done: seq<string>)
    requires PiecesOk(ps) && (rest != [] ==> rest[0] == ',')
    ensures ParseRest(Written(ps) + rest, false, current, done) == ParseRest(rest, false, current + Meant(ps), done)
    decreases |ps|
  {
    if ps == [] {
      assert Written(ps) + rest == rest && current + Meant(ps) == current;
    } else {
      var more := Written(ps[1..]) + rest;
      assert PieceOk(ps[0]);
      NextStarts(ps, rest);
      ReadsPiece(ps[0], more, current, done);
      PiecesTail(ps);
      ReadsPieces(ps[1..], rest, current + ps[0].text, done);
      Reassociate(PieceText(ps[0]), Written(ps[1..]), rest);
      Reassociate(current, ps[0].text, Meant(ps[1..]));
    }
  }

  lemma Reassociate(a: string, b: string, c: string)
    ensures a + (b + c) == (a + b) + c
  {
  }

  lemma NextStarts(ps: seq<Piece>, rest: string)
    requires PiecesOk(ps) && ps != [] && (rest != [] ==> rest[0] == ',')
    ensures var more := Written(ps[1..]) + rest; ps[0].InQuotes? && more != [] ==> more[0] != '"'
  {
    if |ps| > 1 {
      assert PieceOk(ps[1]) && (ps[0].Bare? || ps[1].Bare?);
      assert Written(ps[1..]) == PieceText(ps[1]) + Written(ps[1..][1..]);
    }
  }

  lemma PiecesTail(ps: seq<Piece>)
    requires PiecesOk(ps) && ps != []
    ensures PiecesOk(ps[1..])
  {
    var rest := ps[1..];
    forall i | 0 < i < |rest| ensures rest[i - 1].Bare? || rest[i].Bare? {
      assert rest[i - 1] == ps[i] && rest[i] == ps[i + 1];
    }
  }

  lemma ReadsField(text: string, field: string, rest: string, done: seq<string>)
    requires Writes(text, field) && (rest != [] ==> rest[0] == ',')
    ensures ParseRest(text + rest, false, [], done) == ParseRest(rest, false, field, done)
  {
    var ps :| PiecesOk(ps) && Written(ps) == text && Meant(ps) == field;
    ReadsPieces(ps, rest, [], done);
    assert [] + field == field;
  }

  lemma {:induction false} ReadsAll(texts: seq<string>, fields: seq<string>, done: seq<string>)
    requires |texts| == |fields| > 0
    requires forall i :: 0 <= i < |texts| ==> Writes(texts[i], fields[i])
    ensures ParseRest(Join(texts, ","), false, [], done) == Fields(done + fields)
    decreases |texts|
  {
    if |texts| == 1 {
      assert texts[0] + [] == texts[0];
      ReadsField(texts[0], fields[0], [], done);
      assert fields == [fields[0]];
    } else {
      var rest := "," + Join(texts[1..], ",");
      assert Join(texts, ",") == texts[0] + rest;
      ReadsField(texts[0], fields[0], rest, done);
      assert rest[1..] == Join(texts[1..], ",");
      ReadsAll(texts[1..], fields[1..], done + [fields[0]]);
      assert done + [fields[0]] + fields[1..] == done + fields;
    }
  }

  /** Every non-empty record, however its fields are quoted, is read back unchanged. */
  lemma RoundTrip(texts: seq<string>, fields: seq<string>)
    requires |texts| == |fields| > 0
    requires forall i :: 0 <= i < |texts| ==> Writes(texts[i], fields[i])
    ensures ParseLine(Join(texts, ",")) == Fields(fields)
  {
    ReadsAll(texts, fields, []);
    assert [] + fields == fields;
  }

  // ----- all lines -----

  /** Commas outside quotes, every quotation mark turning quoting on or off. */
  function Separators(s: string, inQuotes: bool): nat {
    if s == [] then 0
    else if s[0] == '"' then Separators(s[1..], !inQuotes)
    else (if s[0] == ',' && !inQuotes then 1 else 0) + Separators(s[1..], inQuotes)
  }

  /** The characters that are neither commas nor quotation marks. */
  function Rest(s: string): string {
    if s == [] then "" else (if s[0] == ',' || s[0] == '"' then "" else [s[0]]) + Rest(s[1..])
  }

  lemma {:induction false} RestAppend(a: string, b: string)
    ensures Rest(a + b) == Rest(a) + Rest(b)
    decreases |a|
  {
    if a == [] {
      assert a + b == b;
    } else {
      RestAppend(a[1..], b);
      assert (a + b)[1..] == a[1..] + b && (a + b)[0] == a[0];
    }
  }

  lemma RestOne(c: char)
    ensures Rest([c]) == if c == ',' || c == '"' then "" else [c]
  {
    assert Rest([c][1..]) == "";
  }

  lemma RestSnoc(done: string, current: string, c: char, more: string)
    ensures Rest(done + (current + [c])) + Rest(more) == Rest(done + current) + Rest([c] + more)
  {
    RestOne(c);
    RestAppend(done + current, [c]);
    assert done + (current + [c]) == done + current + [c];
    RestAppend([c], more);
  }

  /** A line has one field more than commas outside quotes. */
  lemma {:induction false} FieldsAreCounted(s: string, inQuotes: bool, current: string, done: seq<string>)
    ensures var r := ParseRest(s, inQuotes, current, done);
            r.Fields? ==> |r.fields| == |done| + 1 + Separators(s, inQuotes)
    decreases |s|
  {
    if s == [] {
    } else if s[0] == '"' {
      if inQuotes && |s| > 1 && s[1] == '"' {
        assert s[1..][1..] == s[2..] && s[1..][0] == '"';
        FieldsAreCounted(s[2..], true, current + ['"'], done);
      } else {
        FieldsAreCounted(s[1..], !inQuotes, current, done);
      }
    } else if s[0] == ',' && !inQuotes {
      FieldsAreCounted(s[1..], false, [], done + [current]);
    } else {
      FieldsAreCounted(s[1..], inQuotes, current + [s[0]], done);
    }
  }

  lemma RestOfEscape(s: string)
    requires |s| > 1 && s[0] == '"' && s[1] == '"'
    ensures Rest(s) == Rest(s[2..])
  {
    assert s[1..][1..] == s[2..] && s[1..][0] == '"';
  }

  lemma AddQuote(done: string, current: string)
    ensures Rest(done + (current + ['"'])) == Rest(done + current)
  {
    RestAppend(done + current, ['"']);
    RestOne('"');
    assert done + (current + ['"']) == done + current + ['"'];
    assert Rest(done + current) + "" == Rest(done + current);
  }

  /** Of a line's other characters none is lost or moved. */
  lemma {:induction false} NothingIsLost(s: string, inQuotes: bool, current: string, done: seq<string>)
    ensures var r := ParseRest(s, inQuotes, current, done);
            r.Fields? ==> Rest(Concat(r.fields)) == Rest(Concat(done) + current) + Rest(s)
    decreases |s|
  {
    if s == [] {
      ConcatAppend(done, [current]);
      ConcatOne(current);
    } else if s[0] == '"' {
      if inQuotes && |s| > 1 && s[1] == '"' {
        NothingIsLost(s[2..], true, current + ['"'], done);
        AddQuote(Concat(done), current);
        RestOfEscape(s);
      } else {
        NothingIsLost(s[1..], !inQuotes, current, done);
      }
    } else if s[0] == ',' && !inQuotes {
      NothingIsLost(s[1..], false, [], done + [current]);
      ConcatAppend(done, [current]);
      ConcatOne(current);
      assert Concat(done) + current + [] == Concat(done) + current;
    } else {
      NothingIsLost(s[1..], inQuotes, current + [s[0]], done);
      RestSnoc(Concat(done), current, s[0], s[1..]);
      assert [s[0]] + s[1..] == s;
    }
  }
}
