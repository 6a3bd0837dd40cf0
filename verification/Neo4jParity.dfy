/** The verifier's comparison of an imported table with the rows it expects (xtask/src/neo4j_verify.rs). */
module Neo4jParity {
  import opened Wrappers
  import opened Text
  import opened Sets
  import opened Numbers
  import opened Ordering
  import opened Neo4jCsv
  import opened Neo4jColumns
  import opened Neo4jVerify
  import opened SqlText
  import SqlLexer
  import opened SqlParser
  import opened SqlRoundTrip

  /** A cell of the CSV file in comparable form; an integer that cannot be read counts as 0. The text of floating
      point numbers is not modelled. */
  function NormalizeSource(value: string, t: SqlType): string
    requires t == DOUBLE ==> Trim(value) == []
  {
    if Trim(value) == [] then "null"
    else
      match t
      case BIGINT => var v := ParseInt(Trim(value)); IntText(if v.Some? then v.value else 0)
      case BOOLEAN => ToLower(Trim(value))
      case TEXT => value
  }

  function NormalizeValue(v: Value): string {
    match v
    case Null => "null"
    case Int(n) => IntText(n)
    case Bool(b) => if b then "true" else "false"
    case Str(s) => s
  }

  // ----- rows -----

  /** Rows without floating point numbers. */
  predicate Comparable(types: Types, row: Row) {
    forall c :: c in types && types[c] == DOUBLE ==> Trim(Cell(row, c)) == []
  }

  lemma WellTypedIsComparable(types: Types, row: Row)
    requires forall c :: c in types ==> WellTyped(Cell(row, c), types[c])
    ensures Comparable(types, row)
  {
  }

  function ExpectedCells(types: Types, names: seq<string>, row: Row): (r: seq<string>)
    requires Comparable(types, row) && forall i :: 0 <= i < |names| ==> names[i] in types
  {
    seq(|names|, i requires 0 <= i < |names| => NormalizeSource(Cell(row, names[i]), types[names[i]]))
  }

  function ActualCells(row: seq<Value>): (r: seq<string>) {
    seq(|row|, i requires 0 <= i < |row| => NormalizeValue(row[i]))
  }

  lemma NamesInTypes(types: Types)
    ensures forall i :: 0 <= i < |OrderedNames(types)| ==> OrderedNames(types)[i] in types
  {
    OrderedNamesInOrder(types);
    forall i | 0 <= i < |OrderedNames(types)| ensures OrderedNames(types)[i] in types {
      assert OrderedNames(types)[i] in OrderedNames(types);
    }
  }

  function ExpectedNorm(types: Types, row: Row): string
    requires Comparable(types, row)
  {
    NamesInTypes(types);
    Join(ExpectedCells(types, OrderedNames(types), row), "|")
  }

  function ActualNorm(row: seq<Value>): string { Join(ActualCells(row), "|") }

  predicate AllComparable(types: Types, rows: seq<Row>) { forall i :: 0 <= i < |rows| ==> Comparable(types, rows[i]) }

  function ExpectedNorms(types: Types, rows: seq<Row>): (r: seq<string>)
    requires AllComparable(types, rows)
  {
    seq(|rows|, i requires 0 <= i < |rows| => ExpectedNorm(types, rows[i]))
  }

  function ActualNorms(rows: seq<seq<Value>>): (r: seq<string>) {
    seq(|rows|, i requires 0 <= i < |rows| => ActualNorm(rows[i]))
  }

  function Distinct(rows: seq<string>): set<string> { set r | r in rows }

  // ----- the checksum -----

  const FNV_OFFSET: bv64 := 0xcbf29ce484222325
  const FNV_PRIME: bv64 := 0x100000001b3

  function Utf8(c: char): seq<int> {
    var n := c as int;
    if n < 0x80 then [n]
    else if n < 0x800 then [0xC0 + n / 64, 0x80 + n % 64]
    else if n < 0x10000 then [0xE0 + n / 4096, 0x80 + n / 64 % 64, 0x80 + n % 64]
    else [0xF0 + n / 262144, 0x80 + n / 4096 % 64, 0x80 + n / 64 % 64, 0x80 + n % 64]
  }

  function Bytes(s: string): seq<int> { if s == [] then [] else Utf8(s[0]) + Bytes(s[1..]) }

  function Mix(hash: bv64, byte: int): bv64 { (hash ^ ((byte % 256) as bv64)) * FNV_PRIME }

  function MixAll(hash: bv64, bytes: seq<int>): bv64
    decreases |bytes|
  {
    if bytes == [] then hash else MixAll(Mix(hash, bytes[0]), bytes[1..])
  }

  function ChecksumFrom(hash: bv64, rows: seq<string>): bv64
    decreases |rows|
  {
    if rows == [] then hash else ChecksumFrom(Mix(MixAll(hash, Bytes(rows[0])), 10), rows[1..])
  }

  /** 64-bit FNV-1a of the text that has each row on a line of its own. */
  method Checksum(rows: seq<string>) returns (hash: bv64)
    ensures hash == ChecksumFrom(FNV_OFFSET, rows)
    ensures hash == MixAll(FNV_OFFSET, Bytes(Lines(rows)))
  {
    ChecksumIsFnv(FNV_OFFSET, rows);
    hash := FNV_OFFSET;
    for i := 0 to |rows|
      invariant ChecksumFrom(hash, rows[i..]) == ChecksumFrom(FNV_OFFSET, rows)
    {
      assert rows[i..][0] == rows[i] && rows[i..][1..] == rows[i + 1..];
      ghost var before := hash;
      var bytes := Bytes(rows[i]);
      for j := 0 to |bytes|
        invariant MixAll(hash, bytes[j..]) == MixAll(before, bytes)
      {
        assert bytes[j..][0] == bytes[j] && bytes[j..][1..] == bytes[j + 1..];
        hash := Mix(hash, bytes[j]);
      }
      hash := Mix(hash, 10);
    }
  }

  function Lines(rows: seq<string>): string { if rows == [] then "" else rows[0] + "\n" + Lines(rows[1..]) }

  lemma {:induction false} BytesAppend(a: string, b: string)
    ensures Bytes(a + b) == Bytes(a) + Bytes(b)
    decreases |a|
  {
    if a == [] {
      assert a + b == b;
    } else {
      BytesAppend(a[1..], b);
      assert (a + b)[1..] == a[1..] + b && (a + b)[0] == a[0];
      Reassociate(Utf8(a[0]), Bytes(a[1..]), Bytes(b));
    }
  }

  lemma Reassociate(a: seq<int>, b: seq<int>, c: seq<int>)
    ensures a + (b + c) == (a + b) + c
  {
  }

  lemma {:induction false} MixAppend(hash: bv64, a: seq<int>, b: seq<int>)
    ensures MixAll(hash, a + b) == MixAll(MixAll(hash, a), b)
    decreases |a|
  {
    if a == [] {
      assert a + b == b;
    } else {
      MixAppend(Mix(hash, a[0]), a[1..], b);
      assert (a + b)[1..] == a[1..] + b && (a + b)[0] == a[0];
    }
  }

  lemma LineFeed(hash: bv64)
    ensures Bytes("\n") == [10] && MixAll(hash, [10]) == Mix(hash, 10)
  {
    assert "\n"[1..] == [] && [10][1..] == [];
  }

  lemma {:induction false} ChecksumIsFnv(hash: bv64, rows: seq<string>)
    ensures ChecksumFrom(hash, rows) == MixAll(hash, Bytes(Lines(rows)))
    decreases |rows|
  {
    if rows != [] {
      var row, rest := Bytes(rows[0]), Bytes(Lines(rows[1..]));
      BytesAppend(rows[0] + "\n", Lines(rows[1..]));
      BytesAppend(rows[0], "\n");
      LineFeed(MixAll(hash, row));
      MixAppend(hash, row + [10], rest);
      MixAppend(hash, row, [10]);
      ChecksumIsFnv(Mix(MixAll(hash, row), 10), rows[1..]);
    }
  }

  /** The character that one to four bytes stand for, by section 3 of RFC 3629, or none. */
  function Utf8Value(b: seq<int>): Option<int> {
    if |b| == 1 && 0 <= b[0] < 0x80 then Some(b[0])
    else if |b| == 2 && 0xC0 <= b[0] < 0xE0 && Follows(b[1]) then Some((b[0] - 0xC0) * 64 + (b[1] - 0x80))
    else if |b| == 3 && 0xE0 <= b[0] < 0xF0 && Follows(b[1]) && Follows(b[2]) then
      Some((b[0] - 0xE0) * 4096 + (b[1] - 0x80) * 64 + (b[2] - 0x80))
    else if |b| == 4 && 0xF0 <= b[0] < 0xF8 && Follows(b[1]) && Follows(b[2]) && Follows(b[3]) then
      Some((b[0] - 0xF0) * 262144 + (b[1] - 0x80) * 4096 + (b[2] - 0x80) * 64 + (b[3] - 0x80))
    else None
  }

  predicate Follows(b: int) { 0x80 <= b < 0xC0 }

  lemma ByteParts(n: nat)
    ensures n / 64 * 64 + n % 64 == n
    ensures n / 4096 * 4096 + n / 64 % 64 * 64 + n % 64 == n
  {
    assert n / 4096 == n / 64 / 64;
  }

  lemma FourByteParts(n: nat)
    ensures n / 262144 * 262144 + n / 4096 % 64 * 4096 + n / 64 % 64 * 64 + n % 64 == n
  {
    ByteParts(n);
    assert n / 262144 == n / 4096 / 64;
  }

  lemma LeadByte(n: nat)
    ensures n < 0x800 ==> n / 64 < 0x20
    ensures n < 0x10000 ==> n / 4096 < 0x10
    ensures n < 0x110000 ==> n / 262144 < 8
  {
  }

  lemma Utf8IsRead(c: char)
    ensures Utf8Value(Utf8(c)) == Some(c as int) && |Utf8(c)| == SqlLexer.Width(c)
  {
    var n := c as int;
    ByteParts(n);
    FourByteParts(n);
    LeadByte(n);
  }

  lemma LetterA()
    ensures (0x61 % 256) as bv64 == 0x61
  {
  }

  lemma FirstProduct(hash: bv64, letter: bv64)
    requires hash == FNV_OFFSET && letter == 0x61
    ensures (hash ^ letter) * FNV_PRIME == 0xaf63dc4c8601ec8c
  {
  }

  /** Published values of 64-bit FNV-1a: of no bytes and of the letter a. */
  lemma FnvVectors()
    ensures MixAll(FNV_OFFSET, []) == 0xcbf29ce484222325 && MixAll(FNV_OFFSET, [0x61]) == 0xaf63dc4c8601ec8c
  {
    LetterA();
    FirstProduct(FNV_OFFSET, (0x61 % 256) as bv64);
    var hash := Mix(FNV_OFFSET, 0x61);
    assert hash == 0xaf63dc4c8601ec8c;
    assert [0x61][1..] == [] && [0x61][0] == 0x61;
    assert MixAll(hash, []) == hash;
  }

  // ----- the comparison -----

  function SetChecksum(rows: set<string>): bv64 { ChecksumFrom(FNV_OFFSET, Sorted(rows)) }

  /** Equal counts, and equal checksums of the sets of normalized rows. */
  predicate ParityOk(types: Types, expected: seq<Row>, actual: seq<seq<Value>>)
    requires AllComparable(types, expected)
  {
    && |expected| == |actual|
    && SetChecksum(Distinct(ExpectedNorms(types, expected))) == SetChecksum(Distinct(ActualNorms(actual)))
  }

  /** A table passes exactly when it has the expected number of rows and the FNV-1a values of the two texts with the
      distinct normalized rows in order, one a line, are equal. */
  lemma ParityMeans(types: Types, expected: seq<Row>, actual: seq<seq<Value>>)
    requires AllComparable(types, expected)
    ensures ParityOk(types, expected, actual) <==>
              && |expected| == |actual|
              && MixAll(FNV_OFFSET, Bytes(Lines(Sorted(Distinct(ExpectedNorms(types, expected)))))) ==
                 MixAll(FNV_OFFSET, Bytes(Lines(Sorted(Distinct(ActualNorms(actual))))))
  {
    ChecksumIsFnv(FNV_OFFSET, Sorted(Distinct(ExpectedNorms(types, expected))));
    ChecksumIsFnv(FNV_OFFSET, Sorted(Distinct(ActualNorms(actual))));
  }

  lemma BooleanCell(cell: string, word: string)
    requires ToLower(cell) == word && word != [] && IsLower(word[0]) && IsLower(word[|word| - 1])
    ensures Trim(cell) == cell
  {
    assert |cell| == |word|;
    assert Lower(cell[0]) == word[0] && Lower(cell[|cell| - 1]) == word[|word| - 1];
    TrimmedIsFixed(cell);
  }

  /** A well-typed cell and the value stored for it normalize alike. */
  lemma CellsNormalizeAlike(cell: string, t: SqlType)
    requires WellTyped(cell, t)
    ensures NormalizeValue(CellValue(cell, t)) == NormalizeSource(cell, t)
  {
    if t == BOOLEAN && Trim(cell) != [] { BooleanCell(cell, ToLower(cell)); }
  }

  /** Rows that normalize alike position by position compare equal, in whatever order the engine returns them. */
  lemma SameRowsPass(types: Types, expected: seq<Row>, stored: seq<seq<Value>>, actual: seq<seq<Value>>)
    requires AllComparable(types, expected) && |expected| == |stored| && multiset(actual) == multiset(stored)
    requires forall i :: 0 <= i < |stored| ==> ActualNorm(stored[i]) == ExpectedNorm(types, expected[i])
    ensures ParityOk(types, expected, actual)
  {
    assert ActualNorms(stored) == ExpectedNorms(types, expected);
    assert |multiset(actual)| == |multiset(stored)|;
    forall r | r in Distinct(ActualNorms(actual)) ensures r in Distinct(ActualNorms(stored)) {
      NormFrom(actual, stored, r);
    }
    forall r | r in Distinct(ActualNorms(stored)) ensures r in Distinct(ActualNorms(actual)) {
      NormFrom(stored, actual, r);
    }
    assert Distinct(ActualNorms(actual)) == Distinct(ActualNorms(stored));
  }

  lemma NormFrom(a: seq<seq<Value>>, b: seq<seq<Value>>, r: string)
    requires multiset(a) == multiset(b) && r in ActualNorms(a)
    ensures r in ActualNorms(b)
  {
    var i :| 0 <= i < |a| && ActualNorm(a[i]) == r;
    assert a[i] in multiset(a);
    assert a[i] in multiset(b);
    var j :| 0 <= j < |b| && b[j] == a[i];
    assert ActualNorms(b)[j] == r;
  }

  // ----- what counts and sets can tell -----

  predicate NoDuplicates(rows: seq<string>) { forall i, j :: 0 <= i < j < |rows| ==> rows[i] != rows[j] }

  /** What parity compares, short of collisions. */
  predicate CountAndSet(a: seq<string>, b: seq<string>) { |a| == |b| && Distinct(a) == Distinct(b) }

  lemma {:induction false} DistinctSize(rows: seq<string>)
    ensures |Distinct(rows)| <= |rows| && (|Distinct(rows)| == |rows| <==> NoDuplicates(rows))
    decreases |rows|
  {
    if rows != [] {
      var n := |rows| - 1;
      DistinctSize(rows[..n]);
      assert rows == rows[..n] + [rows[n]];
      assert Distinct(rows) == Distinct(rows[..n]) + {rows[n]};
      if rows[n] in rows[..n] {
        assert Distinct(rows) == Distinct(rows[..n]);
        var i :| 0 <= i < n && rows[..n][i] == rows[n];
        assert rows[i] == rows[n];
      } else {
        forall i | 0 <= i < n ensures rows[i] != rows[n] { assert rows[..n][i] == rows[i]; }
      }
    }
  }

  lemma {:induction false} CountOnce(rows: seq<string>, r: string)
    requires NoDuplicates(rows)
    ensures multiset(rows)[r] == if r in Distinct(rows) then 1 else 0
    decreases |rows|
  {
    if rows != [] {
      var n := |rows| - 1;
      CountOnce(rows[..n], r);
      assert rows == rows[..n] + [rows[n]];
      forall i | 0 <= i < n ensures rows[..n][i] != rows[n] { assert rows[i] != rows[n]; }
    }
  }

  lemma PermutationWhenDistinct(expected: seq<string>, actual: seq<string>)
    requires CountAndSet(actual, expected) && (NoDuplicates(expected) || |Distinct(expected)| <= 1)
    ensures multiset(actual) == multiset(expected)
  {
    if NoDuplicates(expected) {
      DistinctSize(expected);
      DistinctSize(actual);
      forall r ensures multiset(actual)[r] == multiset(expected)[r] {
        CountOnce(expected, r);
        CountOnce(actual, r);
      }
    } else {
      forall i | 0 <= i < |expected| ensures actual[i] == expected[i] {
        assert actual[i] in Distinct(actual) && expected[i] in Distinct(expected);
        assert actual[i] in Distinct(expected);
        SingletonEqual(Distinct(expected), actual[i], expected[i]);
      }
      assert actual == expected;
    }
  }

  lemma SingletonEqual(s: set<string>, a: string, b: string)
    requires |s| <= 1 && a in s && b in s
    ensures a == b
  {
    if a != b { assert |{a, b}| == 2 && {a, b} <= s; SubsetSize({a, b}, s); }
  }

  lemma AllEqual(rows: seq<string>, x: string)
    requires forall k :: 0 <= k < |rows| ==> rows[k] == x
    ensures |Distinct(rows)| <= 1
  {
    assert Distinct(rows) <= {x};
    SubsetSize(Distinct(rows), {x});
  }

  /** Two rows such that the first can be replaced by the second without changing the set of rows. */
  lemma ReplaceableRow(rows: seq<string>) returns (j: nat, k: nat)
    requires !NoDuplicates(rows) && |Distinct(rows)| > 1
    ensures j < |rows| && k < |rows| && rows[j] != rows[k] && CountAndSet(rows[j := rows[k]], rows)
  {
    var i: nat;
    i, j :| 0 <= i < j < |rows| && rows[i] == rows[j];
    var x := rows[i];
    if forall m :: 0 <= m < |rows| ==> rows[m] == x { AllEqual(rows, x); }
    k :| 0 <= k < |rows| && rows[k] != x;
    var other := rows[j := rows[k]];
    forall r | r in Distinct(rows) ensures r in Distinct(other) {
      var m :| 0 <= m < |rows| && rows[m] == r;
      assert other[if m == j then i else m] == r;
    }
    assert Distinct(other) == Distinct(rows);
  }
}
