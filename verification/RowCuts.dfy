/** Rows written as cells joined by "|": when the text of a row has only one reading. */
module RowCuts {
  import opened Text

  // ----- cells and pieces -----

  /** The pieces between bars, of all cells in order. */
  function Pieces(cells: seq<string>): seq<string> {
    if cells == [] then [] else Split(cells[0], '|') + Pieces(cells[1..])
  }

  predicate AllWhole(parts: seq<string>) { forall k :: 0 <= k < |parts| ==> '|' !in parts[k] }

  /** Joining cells loses nothing but the places between them. */
  lemma {:induction false} SplitJoined(cells: seq<string>)
    requires cells != []
    ensures Split(Join(cells, "|"), '|') == Pieces(cells)
    decreases |cells|
  {
    if |cells| == 1 {
      assert Pieces(cells[1..]) == [];
    } else {
      SplitJoined(cells[1..]);
      SplitAround(cells[0], Join(cells[1..], "|"), '|');
    }
  }

  lemma SamePieces(a: seq<string>, b: seq<string>)
    requires |a| == |b|
    ensures Join(a, "|") == Join(b, "|") <==> Pieces(a) == Pieces(b)
  {
    if a != [] {
      SplitJoined(a);
      SplitJoined(b);
      SplitBack(Join(a, "|"), '|');
      SplitBack(Join(b, "|"), '|');
    }
  }

  lemma {:induction false} WholePieces(parts: seq<string>)
    requires AllWhole(parts)
    ensures Pieces(parts) == parts
    decreases |parts|
  {
    if parts != [] {
      assert '|' !in parts[0];
      SplitNone(parts[0], '|');
      WholePieces(parts[1..]);
    }
  }

  lemma SplitRejoined(parts: seq<string>)
    requires parts != [] && AllWhole(parts)
    ensures Split(Join(parts, "|"), '|') == parts
  {
    SplitJoined(parts);
    WholePieces(parts);
  }

  lemma {:induction false} PiecesAppend(a: seq<string>, b: seq<string>)
    ensures Pieces(a + b) == Pieces(a) + Pieces(b)
    decreases |a|
  {
    if a == [] {
      assert a + b == b;
    } else {
      assert (a + b)[1..] == a[1..] + b;
      PiecesAppend(a[1..], b);
    }
  }

  lemma {:induction false} PiecesAreWhole(cells: seq<string>)
    ensures AllWhole(Pieces(cells))
    decreases |cells|
  {
    if cells != [] {
      SplitBack(cells[0], '|');
      PiecesAreWhole(cells[1..]);
    }
  }

  /** Where the pieces of a cell start. */
  function Start(cells: seq<string>, k: nat): (n: nat)
    requires k <= |cells|
    ensures n <= |Pieces(cells)|
  {
    PiecesAppend(cells[..k], cells[k..]);
    assert cells == cells[..k] + cells[k..];
    |Pieces(cells[..k])|
  }

  lemma StartStep(cells: seq<string>, k: nat)
    requires k < |cells|
    ensures Start(cells, k) + |Split(cells[k], '|')| == Start(cells, k + 1) <= |Pieces(cells)|
    ensures Pieces(cells)[Start(cells, k)..Start(cells, k + 1)] == Split(cells[k], '|')
  {
    var front, cell, rest := cells[..k], [cells[k]], cells[k + 1..];
    assert cells == front + cell + rest && cells[..k + 1] == front + cell;
    PiecesAppend(front, cell);
    PiecesAppend(front + cell, rest);
    assert Pieces(cell) == Split(cells[k], '|') + Pieces([]);
  }

  lemma StartEnd(cells: seq<string>)
    ensures Start(cells, 0) == 0 && Start(cells, |cells|) == |Pieces(cells)|
  {
    assert cells[..|cells|] == cells;
  }

  lemma {:induction false} SameStartsSameCells(a: seq<string>, b: seq<string>)
    requires |a| == |b| && Pieces(a) == Pieces(b) && forall k :: 0 <= k <= |a| ==> Start(a, k) == Start(b, k)
    ensures a == b
  {
    forall k | 0 <= k < |a| ensures a[k] == b[k] {
      StartStep(a, k);
      StartStep(b, k);
      assert Start(a, k + 1) == Start(b, k + 1);
      SplitBack(a[k], '|');
      SplitBack(b[k], '|');
    }
  }

  // ----- fields -----

  /** A column takes any text, or only texts it can read, none of which holds a bar. */
  datatype Field = Free | Atom(takes: string -> bool)

  ghost predicate Barless(fields: seq<Field>) {
    forall k, x :: 0 <= k < |fields| && fields[k].Atom? && fields[k].takes(x) ==> '|' !in x
  }

  predicate Shaped(fields: seq<Field>, cells: seq<string>) {
    |cells| == |fields| && forall k :: 0 <= k < |cells| && fields[k].Atom? ==> fields[k].takes(cells[k])
  }

  /** Two free columns with none between them. */
  predicate Neighbours(fields: seq<Field>, i: nat, j: nat) {
    i < j < |fields| && fields[i].Free? && fields[j].Free? && forall k :: i < k < j ==> fields[k].Atom?
  }

  /** Column i could also end before another piece, if the columns up to j can take what follows. */
  predicate Shift(fields: seq<Field>, cells: seq<string>, i: nat, j: nat, cut: nat)
    requires |cells| == |fields|
  {
    && Neighbours(fields, i, j)
    && Start(cells, i) < cut && cut + (j - i) <= Start(cells, j + 1) && cut != Start(cells, i + 1)
    && forall k :: i < k < j ==> fields[k].takes(Pieces(cells)[cut + k - i - 1])
  }

  predicate Shiftable(fields: seq<Field>, cells: seq<string>)
    requires |cells| == |fields|
  {
    exists i, j, cut | 0 <= i < j < |cells| && 0 <= cut <= |Pieces(cells)| :: Shift(fields, cells, i, j, cut)
  }

  // ----- two readings of one text -----

  lemma AtomIsOnePiece(fields: seq<Field>, cells: seq<string>, k: nat)
    requires Barless(fields) && Shaped(fields, cells) && k < |cells| && fields[k].Atom?
    ensures Start(cells, k + 1) == Start(cells, k) + 1 && Start(cells, k) < |Pieces(cells)|
    ensures Pieces(cells)[Start(cells, k)] == cells[k]
  {
    assert fields[k].takes(cells[k]);
    SplitNone(cells[k], '|');
    StartStep(cells, k);
    assert Pieces(cells)[Start(cells, k)] == Pieces(cells)[Start(cells, k)..Start(cells, k + 1)][0];
  }

  /** Columns from i up to j that are no free ones take one piece each. */
  lemma {:induction false} AtomRun(fields: seq<Field>, cells: seq<string>, i: nat, j: nat)
    requires Barless(fields) && Shaped(fields, cells) && i <= j <= |cells| && forall k :: i <= k < j ==> fields[k].Atom?
    ensures Start(cells, j) == Start(cells, i) + (j - i)
    decreases j - i
  {
    if i < j {
      AtomRun(fields, cells, i, j - 1);
      AtomIsOnePiece(fields, cells, j - 1);
    }
  }

  /** Another reading of the same pieces that ends column i elsewhere is a shift. */
  lemma ReadingShifts(fields: seq<Field>, cells: seq<string>, other: seq<string>, i: nat, j: nat)
    requires Barless(fields) && Shaped(fields, cells) && Shaped(fields, other) && Pieces(cells) == Pieces(other)
    requires Neighbours(fields, i, j) && Start(other, i + 1) != Start(cells, i + 1)
    requires Start(cells, i) < Start(other, i + 1) && Start(other, j) < Start(cells, j + 1)
    ensures Shift(fields, cells, i, j, Start(other, i + 1))
  {
    AtomRun(fields, other, i + 1, j);
    forall k | i < k < j ensures fields[k].takes(Pieces(cells)[Start(other, i + 1) + k - i - 1]) {
      AtomRun(fields, other, i + 1, k);
      AtomIsOnePiece(fields, other, k);
    }
  }

  /** The free column before j. */
  lemma {:induction false} FreeBefore(fields: seq<Field>, j: nat, k: nat) returns (i: nat)
    requires k < j < |fields| && fields[j].Free? && exists a :: 0 <= a <= k && fields[a].Free?
    requires forall a :: k < a < j ==> fields[a].Atom?
    ensures Neighbours(fields, i, j)
    decreases k
  {
    if fields[k].Free? { i := k; } else { i := FreeBefore(fields, j, k - 1); }
  }

  /** The free column after i. */
  lemma {:induction false} FreeAfter(fields: seq<Field>, i: nat, k: nat) returns (j: nat)
    requires i < k < |fields| && fields[i].Free? && exists a :: k <= a < |fields| && fields[a].Free?
    requires forall a :: i < a < k ==> fields[a].Atom?
    ensures Neighbours(fields, i, j)
    decreases |fields| - k
  {
    if fields[k].Free? { j := k; } else { j := FreeAfter(fields, i, k + 1); }
  }

  /** A reading whose column k starts later: it is behind up to some column, where the text catches up. */
  lemma {:induction false} LateReading(fields: seq<Field>, cells: seq<string>, other: seq<string>, k: nat)
    requires Barless(fields) && Shaped(fields, cells) && Shaped(fields, other) && Pieces(cells) == Pieces(other)
    requires k <= |cells| && Start(other, k) > Start(cells, k)
    ensures Shiftable(fields, cells)
    decreases |cells| - k
  {
    StartEnd(cells);
    StartEnd(other);
    if Start(other, k + 1) > Start(cells, k + 1) {
      LateReading(fields, cells, other, k + 1);
    } else {
      StartStep(cells, k);
      StartStep(other, k);
      if fields[k].Atom? { AtomIsOnePiece(fields, cells, k); }
      if forall a :: 0 <= a < k ==> fields[a].Atom? {
        AtomRun(fields, cells, 0, k);
        AtomRun(fields, other, 0, k);
      }
      var i := FreeBefore(fields, k, k - 1);
      AtomRun(fields, cells, i + 1, k);
      AtomRun(fields, other, i + 1, k);
      StartStep(cells, i);
      ReadingShifts(fields, cells, other, i, k);
    }
  }

  /** A reading whose column k starts earlier. */
  lemma {:induction false} EarlyReading(fields: seq<Field>, cells: seq<string>, other: seq<string>, k: nat)
    requires Barless(fields) && Shaped(fields, cells) && Shaped(fields, other) && Pieces(cells) == Pieces(other)
    requires k <= |cells| && Start(other, k) < Start(cells, k)
    ensures Shiftable(fields, cells)
    decreases k
  {
    StartEnd(cells);
    StartEnd(other);
    var i := k - 1;
    if Start(other, i) < Start(cells, i) {
      EarlyReading(fields, cells, other, i);
    } else {
      StartStep(cells, i);
      StartStep(other, i);
      if fields[i].Atom? { AtomIsOnePiece(fields, cells, i); }
      if forall a :: k <= a < |cells| ==> fields[a].Atom? {
        AtomRun(fields, cells, k, |cells|);
        AtomRun(fields, other, k, |cells|);
      }
      var j := FreeAfter(fields, i, k);
      AtomRun(fields, cells, k, j);
      AtomRun(fields, other, k, j);
      StartStep(cells, j);
      ReadingShifts(fields, cells, other, i, j);
    }
  }

  lemma UnshiftableHasOneReading(fields: seq<Field>, cells: seq<string>, other: seq<string>)
    requires Barless(fields) && Shaped(fields, cells) && Shaped(fields, other) && !Shiftable(fields, cells)
    requires Join(cells, "|") == Join(other, "|")
    ensures cells == other
  {
    SamePieces(cells, other);
    forall k | 0 <= k <= |cells| ensures Start(cells, k) == Start(other, k) {
      if Start(other, k) > Start(cells, k) { LateReading(fields, cells, other, k); }
      if Start(other, k) < Start(cells, k) { EarlyReading(fields, cells, other, k); }
    }
    SameStartsSameCells(cells, other);
  }

  // ----- a shift gives another reading -----

  /** Two cells in place of columns i to j, with pieces between them as cells of their own. */
  function Replaced(cells: seq<string>, i: nat, j: nat, x: string, between: seq<string>, y: string): (r: seq<string>)
    requires i < j < |cells| && |between| == j - i - 1
    ensures |r| == |cells|
  {
    cells[..i] + [x] + between + [y] + cells[j + 1..]
  }

  lemma CellOfPieces(cells: seq<string>, from: nat, to: nat) returns (x: string)
    requires from < to <= |Pieces(cells)|
    ensures Pieces([x]) == Pieces(cells)[from..to]
  {
    PiecesAreWhole(cells);
    SplitRejoined(Pieces(cells)[from..to]);
    x := Join(Pieces(cells)[from..to], "|");
    assert Pieces([x]) == Split(x, '|') + Pieces([]);
  }

  lemma PiecesAgain(cells: seq<string>, from: nat, to: nat)
    requires from <= to <= |Pieces(cells)|
    ensures Pieces(Pieces(cells)[from..to]) == Pieces(cells)[from..to]
  {
    PiecesAreWhole(cells);
    WholePieces(Pieces(cells)[from..to]);
  }

  lemma InThree<T>(s: seq<T>, i: nat, j: nat)
    requires i <= j <= |s|
    ensures s == s[..i] + s[i..j] + s[j..] && s[..j] == s[..i] + s[i..j]
  {
  }

  lemma PartInThree<T>(s: seq<T>, a: nat, b: nat, c: nat, d: nat)
    requires a <= b <= c <= d <= |s|
    ensures s[a..d] == s[a..b] + s[b..c] + s[c..d]
  {
  }

  lemma Regrouped<T>(a: seq<T>, b: seq<T>, c: seq<T>, d: seq<T>, e: seq<T>)
    ensures a + b + c + d + e == a + (b + c + d) + e
  {
  }

  lemma PiecesOfThree(a: seq<string>, b: seq<string>, c: seq<string>)
    ensures Pieces(a + b + c) == Pieces(a) + Pieces(b) + Pieces(c)
  {
    PiecesAppend(a, b);
    PiecesAppend(a + b, c);
  }

  lemma MiddlePieces(a: seq<string>, b: seq<string>, c: seq<string>)
    ensures |Pieces(a)| + |Pieces(b)| == |Pieces(a + b)| <= |Pieces(a + b + c)|
    ensures Pieces(a + b + c)[|Pieces(a)|..|Pieces(a + b)|] == Pieces(b)
  {
    PiecesOfThree(a, b, c);
    PiecesAppend(a, b);
  }

  lemma PartPieces(cells: seq<string>, i: nat, j: nat)
    requires i <= j <= |cells|
    ensures Start(cells, i) <= Start(cells, j) && Pieces(cells[i..j]) == Pieces(cells)[Start(cells, i)..Start(cells, j)]
  {
    MiddlePieces(cells[..i], cells[i..j], cells[j..]);
    InThree(cells, i, j);
  }

  lemma Recut(p: seq<string>, a: nat, cut: nat, back: nat, d: nat, x: string, y: string)
    requires a <= cut <= back <= d <= |p| && Pieces([x]) == p[a..cut] && Pieces([y]) == p[back..d]
    requires Pieces(p[cut..back]) == p[cut..back]
    ensures Pieces([x] + p[cut..back] + [y]) == p[a..d]
  {
    PiecesOfThree([x], p[cut..back], [y]);
    PartInThree(p, a, cut, back, d);
  }

  lemma SwapPieces(a: seq<string>, b: seq<string>, other: seq<string>, c: seq<string>)
    requires Pieces(b) == Pieces(other)
    ensures Pieces(a + b + c) == Pieces(a + other + c)
  {
    PiecesOfThree(a, b, c);
    PiecesOfThree(a, other, c);
  }

  /** Replacing cells by others with the same pieces changes no pieces. */
  lemma ReplacedPieces(cells: seq<string>, i: nat, j: nat, x: string, between: seq<string>, y: string)
    requires i < j < |cells| && |between| == j - i - 1
    requires Pieces([x] + between + [y]) == Pieces(cells[i..j + 1])
    ensures Pieces(Replaced(cells, i, j, x, between, y)) == Pieces(cells)
  {
    SwapPieces(cells[..i], cells[i..j + 1], [x] + between + [y], cells[j + 1..]);
    InThree(cells, i, j + 1);
    Regrouped(cells[..i], [x], between, [y], cells[j + 1..]);
  }

  lemma ReplacedStart(cells: seq<string>, i: nat, j: nat, x: string, between: seq<string>, y: string)
    requires i < j < |cells| && |between| == j - i - 1
    ensures Start(Replaced(cells, i, j, x, between, y), i + 1) == Start(cells, i) + |Pieces([x])|
  {
    assert Replaced(cells, i, j, x, between, y)[..i + 1] == cells[..i] + [x];
    PiecesAppend(cells[..i], [x]);
  }

  lemma ReplacedIsShaped(fields: seq<Field>, cells: seq<string>, i: nat, j: nat, cut: nat, x: string, y: string)
    requires Shaped(fields, cells) && Shift(fields, cells, i, j, cut)
    ensures Shaped(fields, Replaced(cells, i, j, x, Pieces(cells)[cut..cut + (j - i - 1)], y))
  {
    var other := Replaced(cells, i, j, x, Pieces(cells)[cut..cut + (j - i - 1)], y);
    forall k | 0 <= k < |other| && fields[k].Atom? ensures fields[k].takes(other[k]) {
      if i < k < j { assert other[k] == Pieces(cells)[cut + k - i - 1]; } else { assert other[k] == cells[k]; }
    }
  }

  lemma CutElsewhere(cells: seq<string>, i: nat, j: nat, cut: nat, back: nat) returns (x: string, y: string)
    requires i < j < |cells| && Start(cells, i) < cut && back == cut + (j - i - 1) < Start(cells, j + 1)
    ensures var other := Replaced(cells, i, j, x, Pieces(cells)[cut..back], y);
            Pieces(other) == Pieces(cells) && Start(other, i + 1) == cut
  {
    x := CellOfPieces(cells, Start(cells, i), cut);
    y := CellOfPieces(cells, back, Start(cells, j + 1));
    PartPieces(cells, i, j + 1);
    PiecesAgain(cells, cut, back);
    Recut(Pieces(cells), Start(cells, i), cut, back, Start(cells, j + 1), x, y);
    ReplacedPieces(cells, i, j, x, Pieces(cells)[cut..back], y);
    ReplacedStart(cells, i, j, x, Pieces(cells)[cut..back], y);
  }

  lemma ShiftGivesAnother(fields: seq<Field>, cells: seq<string>, i: nat, j: nat, cut: nat) returns (other: seq<string>)
    requires Shaped(fields, cells) && Shift(fields, cells, i, j, cut)
    ensures Shaped(fields, other) && Join(other, "|") == Join(cells, "|") && other != cells
  {
    var back := cut + (j - i - 1);
    var x, y := CutElsewhere(cells, i, j, cut, back);
    other := Replaced(cells, i, j, x, Pieces(cells)[cut..back], y);
    ReplacedIsShaped(fields, cells, i, j, cut, x, y);
    SamePieces(other, cells);
  }

  /** The text of a row has exactly one reading if and only if no column boundary can be shifted. */
  lemma OneReading(fields: seq<Field>, cells: seq<string>)
    requires Barless(fields) && Shaped(fields, cells)
    ensures (forall other :: Shaped(fields, other) && Join(other, "|") == Join(cells, "|") ==> other == cells)
       <==> !Shiftable(fields, cells)
  {
    if Shiftable(fields, cells) {
      var i, j, cut :| 0 <= i < j < |cells| && 0 <= cut <= |Pieces(cells)| && Shift(fields, cells, i, j, cut);
      var other := ShiftGivesAnother(fields, cells, i, j, cut);
    } else {
      forall other | Shaped(fields, other) && Join(other, "|") == Join(cells, "|") ensures other == cells {
        UnshiftableHasOneReading(fields, cells, other);
      }
    }
  }
}
