/** Which lines the check on `execute_sql` skips as test code (xtask/src/check_adr.rs). */
module TestRegions {
  import opened Wrappers

  /** What the tracker looks at in a line: its braces, whether it starts with `#[cfg(test)]`, whether it starts with
      an attribute, whether it is blank, and whether it declares a module `tests`. */
  datatype Line = Line(opens: nat, closes: nat, cfgTest: bool, attribute: bool, blank: bool, modTests: bool)

  /** The brace depth, the depth at which an open test region was entered, and whether `#[cfg(test)]` is pending. */
  datatype Tracker = Tracker(depth: int, region: Option<int>, pending: bool)

  const START := Tracker(0, None, false)

  predicate Opening(t: Tracker, line: Line) {
    t.region.None? && line.opens > 0 && (t.pending || line.cfgTest || line.modTests)
  }

  function Enter(t: Tracker, line: Line): Tracker {
    var pending := t.pending || line.cfgTest;
    if Opening(t, line) then Tracker(t.depth, Some(t.depth), false)
    else Tracker(t.depth, t.region, pending && (line.attribute || line.blank))
  }

  /** The line belongs to a region, the one it opens included. */
  predicate Skipped(t: Tracker, line: Line) { Enter(t, line).region.Some? }

  function Next(t: Tracker, line: Line): Tracker {
    var e := Enter(t, line);
    var depth := t.depth + line.opens - line.closes;
    Tracker(depth, if e.region.Some? && depth <= e.region.value then None else e.region, e.pending)
  }

  function After(lines: seq<Line>, k: nat): Tracker
    requires k <= |lines|
  {
    if k == 0 then START else Next(After(lines, k - 1), lines[k - 1])
  }

  predicate SkippedAt(lines: seq<Line>, j: nat) { j < |lines| && Skipped(After(lines, j), lines[j]) }

  /** Whether each line is skipped. */
  method TrackRegions(lines: seq<Line>) returns (skipped: seq<bool>)
    ensures |skipped| == |lines|
    ensures forall j :: 0 <= j < |lines| ==> skipped[j] == SkippedAt(lines, j)
  {
    var depth, region, pending: bool := 0, None, false;
    skipped := [];
    for k := 0 to |lines|
      invariant Tracker(depth, region, pending) == After(lines, k) && |skipped| == k
      invariant forall j :: 0 <= j < k ==> skipped[j] == SkippedAt(lines, j)
    {
      var line := lines[k];
      if line.cfgTest {
        pending := true;
      }
      if region.None? && line.opens > 0 && (pending || line.modTests) {
        region := Some(depth);
        pending := false;
      } else if !line.attribute && !line.blank {
        pending := false;
      }
      skipped := skipped + [region.Some?];
      depth := depth + line.opens - line.closes;
      if region.Some? && depth <= region.value {
        region := None;
      }
    }
  }

  // ----- regions -----

  function Depth(lines: seq<Line>, k: nat): int
    requires k <= |lines|
  {
    if k == 0 then 0 else Depth(lines, k - 1) + lines[k - 1].opens - lines[k - 1].closes
  }

  lemma {:induction false} DepthIs(lines: seq<Line>, k: nat)
    requires k <= |lines|
    ensures After(lines, k).depth == Depth(lines, k)
    decreases k
  {
    if k > 0 { DepthIs(lines, k - 1); }
  }

  /** An open region was entered below the current depth. */
  lemma {:induction false} RegionIsBelow(lines: seq<Line>, k: nat)
    requires k <= |lines|
    ensures After(lines, k).region.Some? ==> After(lines, k).region.value < Depth(lines, k)
    decreases k
  {
    if k > 0 {
      RegionIsBelow(lines, k - 1);
      DepthIs(lines, k);
    }
  }

  predicate OpensAt(lines: seq<Line>, k: nat) { k < |lines| && Opening(After(lines, k), lines[k]) }

  /** From line k on, the depth at the end of every line before j is above what it was before k. */
  predicate StaysAbove(lines: seq<Line>, k: nat, j: nat)
    requires k <= j <= |lines|
  {
    forall i :: k < i <= j ==> Depth(lines, i) > Depth(lines, k)
  }

  ghost predicate Encloses(lines: seq<Line>, k: nat, j: nat)
    requires j <= |lines|
  {
    k <= j && OpensAt(lines, k) && StaysAbove(lines, k, j)
  }

  /** A region is open before line j exactly when some earlier line opened one and the depth has stayed above since. */
  lemma {:induction false} OpenRegion(lines: seq<Line>, j: nat)
    requires j <= |lines|
    ensures After(lines, j).region.Some? <==> exists k :: 0 <= k < j && Encloses(lines, k, j)
    ensures forall k :: 0 <= k < j && Encloses(lines, k, j) ==> After(lines, j).region == Some(Depth(lines, k))
    decreases j
  {
    if j > 0 {
      var before, line := After(lines, j - 1), lines[j - 1];
      OpenRegion(lines, j - 1);
      DepthIs(lines, j - 1);
      DepthIs(lines, j);
      forall k | 0 <= k < j && Encloses(lines, k, j) ensures After(lines, j).region == Some(Depth(lines, k)) {
        assert Depth(lines, j) > Depth(lines, k);
        if k < j - 1 { assert Encloses(lines, k, j - 1); }
      }
      if After(lines, j).region.Some? {
        if Opening(before, line) {
          assert Encloses(lines, j - 1, j);
        } else {
          var k :| 0 <= k < j - 1 && Encloses(lines, k, j - 1);
          assert Encloses(lines, k, j);
        }
      }
    }
  }

  /** The skipped lines are exactly those from a line that opens a region up to the one after which the depth is back
      where it was. */
  lemma SkippedLines(lines: seq<Line>, j: nat)
    requires j < |lines|
    ensures SkippedAt(lines, j) <==> exists k :: 0 <= k <= j && Encloses(lines, k, j)
  {
    OpenRegion(lines, j);
    if Opening(After(lines, j), lines[j]) { assert Encloses(lines, j, j); }
    if After(lines, j).region.Some? {
      var k :| 0 <= k < j && Encloses(lines, k, j);
      assert Encloses(lines, k, j);
    }
  }

  /** Nothing is left open by a balanced file whose depth is never negative. */
  lemma NothingLeftOpen(lines: seq<Line>)
    requires Depth(lines, |lines|) == 0 && forall k :: 0 <= k <= |lines| ==> Depth(lines, k) >= 0
    ensures After(lines, |lines|).region.None?
  {
    OpenRegion(lines, |lines|);
    RegionIsBelow(lines, |lines|);
  }

  /** A closing brace too many, made up for later, leaves a region open over the rest of a balanced file. */
  lemma NegativeDepthLeavesOpen()
    ensures var lines := [Line(0, 1, false, false, false, false), Line(1, 0, false, false, false, true)];
            Depth(lines, 2) == 0 && After(lines, 2).region == Some(-1)
  {
    var lines := [Line(0, 1, false, false, false, false), Line(1, 0, false, false, false, true)];
    assert After(lines, 1) == Tracker(-1, None, false);
    assert Depth(lines, 1) == -1;
  }
}
