/** The latency percentile of a benchmark (`percentile_us`, xtask/src/neo4j_bench.rs). */
module Percentiles {

  predicate IsSorted(s: seq<nat>) { forall i, j :: 0 <= i < j < |s| ==> s[i] <= s[j] }

  function Insert(x: nat, s: seq<nat>): seq<nat> {
    if s == [] || x <= s[0] then [x] + s else [s[0]] + Insert(x, s[1..])
  }

  function Sort(s: seq<nat>): seq<nat> { if s == [] then [] else Insert(s[0], Sort(s[1..])) }

  function Min(a: nat, b: nat): nat { if a <= b then a else b }

  /** The position of a percentile among n sorted samples, rounded up. */
  function Index(n: nat, percentile: nat): (i: nat)
    requires n > 0
    ensures i < n
  {
    Min(((n - 1) * percentile + 99) / 100, n - 1)
  }

  function PercentileUs(values: seq<nat>, percentile: nat): nat {
    if values == [] then 0
    else
      SortKeeps(values);
      Sort(values)[Index(|values|, percentile)]
  }

  // ----- sorting -----

  lemma {:induction false} InsertContents(x: nat, s: seq<nat>)
    ensures multiset(Insert(x, s)) == multiset(s) + multiset{x}
    decreases |s|
  {
    if !(s == [] || x <= s[0]) {
      InsertContents(x, s[1..]);
      assert s == [s[0]] + s[1..];
    }
  }

  lemma SortedCons(y: nat, r: seq<nat>)
    requires IsSorted(r) && (r != [] ==> y <= r[0])
    ensures IsSorted([y] + r)
  {
  }

  lemma {:induction false} InsertKeeps(x: nat, s: seq<nat>)
    requires IsSorted(s)
    ensures IsSorted(Insert(x, s)) && multiset(Insert(x, s)) == multiset(s) + multiset{x}
    decreases |s|
  {
    InsertContents(x, s);
    if s == [] || x <= s[0] {
      SortedCons(x, s);
    } else {
      InsertKeeps(x, s[1..]);
      var r := Insert(x, s[1..]);
      assert r[0] == x || r[0] == s[1];
      SortedCons(s[0], r);
    }
  }

  lemma {:induction false} SortKeeps(s: seq<nat>)
    ensures IsSorted(Sort(s)) && multiset(Sort(s)) == multiset(s) && |Sort(s)| == |s|
    decreases |s|
  {
    if s != [] {
      SortKeeps(s[1..]);
      InsertKeeps(s[0], Sort(s[1..]));
      assert s == [s[0]] + s[1..];
    }
    assert |multiset(Sort(s))| == |multiset(s)|;
  }

  lemma FirstIsLeast(a: seq<nat>, b: seq<nat>)
    requires IsSorted(a) && a != [] && b != [] && multiset(a) == multiset(b)
    ensures a[0] <= b[0]
  {
    assert b[0] in multiset(b);
    assert b[0] in multiset(a);
    var i :| 0 <= i < |a| && a[i] == b[0];
  }

  lemma {:induction false} SortedIsUnique(a: seq<nat>, b: seq<nat>)
    requires IsSorted(a) && IsSorted(b) && multiset(a) == multiset(b)
    ensures a == b
    decreases |a|
  {
    assert |multiset(a)| == |multiset(b)|;
    if a != [] {
      FirstIsLeast(a, b);
      FirstIsLeast(b, a);
      assert a == [a[0]] + a[1..] && b == [b[0]] + b[1..];
      assert multiset(a[1..]) == multiset(a) - multiset{a[0]} && multiset(b[1..]) == multiset(b) - multiset{b[0]};
      SortedIsUnique(a[1..], b[1..]);
    }
  }

  /** The order of the samples does not matter. */
  lemma OrderDoesNotMatter(a: seq<nat>, b: seq<nat>, percentile: nat)
    requires multiset(a) == multiset(b)
    ensures PercentileUs(a, percentile) == PercentileUs(b, percentile)
  {
    SortKeeps(a);
    SortKeeps(b);
    assert |multiset(a)| == |multiset(b)|;
    SortedIsUnique(Sort(a), Sort(b));
  }

  // ----- rank -----

  function AtMost(x: nat): nat -> bool { v => v <= x }

  function AtLeast(x: nat): nat -> bool { v => v >= x }

  function Count(s: seq<nat>, f: nat -> bool): nat {
    if s == [] then 0 else (if f(s[0]) then 1 else 0) + Count(s[1..], f)
  }

  lemma {:induction false} CountInsert(x: nat, s: seq<nat>, f: nat -> bool)
    ensures Count(Insert(x, s), f) == (if f(x) then 1 else 0) + Count(s, f)
    decreases |s|
  {
    if s == [] || x <= s[0] {
      assert ([x] + s)[1..] == s;
    } else {
      CountInsert(x, s[1..], f);
      assert ([s[0]] + Insert(x, s[1..]))[1..] == Insert(x, s[1..]);
    }
  }

  lemma {:induction false} CountSort(s: seq<nat>, f: nat -> bool)
    ensures Count(Sort(s), f) == Count(s, f)
    decreases |s|
  {
    if s != [] {
      CountSort(s[1..], f);
      CountInsert(s[0], Sort(s[1..]), f);
    }
  }

  lemma {:induction false} CountAppend(a: seq<nat>, b: seq<nat>, f: nat -> bool)
    ensures Count(a + b, f) == Count(a, f) + Count(b, f)
    decreases |a|
  {
    if a == [] {
      assert a + b == b;
    } else {
      CountAppend(a[1..], b, f);
      assert (a + b)[1..] == a[1..] + b;
    }
  }

  lemma {:induction false} CountAll(s: seq<nat>, f: nat -> bool)
    requires forall i :: 0 <= i < |s| ==> f(s[i])
    ensures Count(s, f) == |s|
    decreases |s|
  {
    if s != [] { CountAll(s[1..], f); }
  }

  lemma RankInSorted(s: seq<nat>, i: nat)
    requires IsSorted(s) && i < |s|
    ensures Count(s, AtMost(s[i])) >= i + 1 && Count(s, AtLeast(s[i])) >= |s| - i
  {
    var low, high := AtMost(s[i]), AtLeast(s[i]);
    assert s == s[..i + 1] + s[i + 1..] && s == s[..i] + s[i..];
    CountAll(s[..i + 1], low);
    CountAppend(s[..i + 1], s[i + 1..], low);
    CountAll(s[i..], high);
    CountAppend(s[..i], s[i..], high);
  }

  /** The position is the percentile of n - 1, rounded up, and the last one beyond 100. */
  lemma IndexIs(n: nat, percentile: nat)
    requires n > 0
    ensures var i := Index(n, percentile);
            if percentile <= 100 then 100 * i >= (n - 1) * percentile > 100 * (i - 1) else i == n - 1
  {
    var a := (n - 1) * percentile;
    if percentile <= 100 { Scaled(n - 1, percentile, 100); } else { Scaled(n - 1, 100, percentile); }
    RoundsUp(a, n - 1);
  }

  lemma RoundsUp(a: nat, top: nat)
    ensures var i := Min((a + 99) / 100, top);
            if a <= 100 * top then 100 * i >= a > 100 * (i - 1) else i == top
  {
  }

  /** A true order statistic: with i the position, at least i + 1 samples are at most the result and at least n - i are
      at least it; and the position is the percentile of n - 1, rounded up. */
  lemma PercentileRank(values: seq<nat>, percentile: nat)
    requires values != []
    ensures var r, i, n := PercentileUs(values, percentile), Index(|values|, percentile), |values|;
            && (if percentile <= 100 then 100 * i >= (n - 1) * percentile > 100 * (i - 1) else i == n - 1)
            && r in values
            && Count(values, AtMost(r)) >= i + 1 && Count(values, AtLeast(r)) >= |values| - i
  {
    var i := Index(|values|, percentile);
    IndexIs(|values|, percentile);
    SortKeeps(values);
    var r := Sort(values)[i];
    RankInSorted(Sort(values), i);
    CountSort(values, AtMost(r));
    CountSort(values, AtLeast(r));
    assert r in multiset(Sort(values));
    assert r in multiset(values);
  }

  lemma IndexRises(n: nat, p: nat, q: nat)
    requires n > 0 && p <= q
    ensures Index(n, p) <= Index(n, q)
  {
    Scaled(n - 1, p, q);
  }

  lemma Scaled(a: nat, p: nat, q: nat)
    requires p <= q
    ensures a * p <= a * q
  {
    assert a * q - a * p == a * (q - p);
  }

  /** A higher percentile is never lower. */
  lemma PercentileRises(values: seq<nat>, p: nat, q: nat)
    requires p <= q
    ensures PercentileUs(values, p) <= PercentileUs(values, q)
  {
    SortKeeps(values);
    if values != [] { IndexRises(|values|, p, q); }
  }

  /** 0 is the least sample, and 100 the greatest. */
  lemma Extremes(values: seq<nat>, v: nat)
    requires v in values
    ensures PercentileUs(values, 0) <= v <= PercentileUs(values, 100)
  {
    SortKeeps(values);
    assert v in multiset(values);
    assert v in multiset(Sort(values));
    var k :| 0 <= k < |values| && Sort(values)[k] == v;
    assert Index(|values|, 0) == 0 && Index(|values|, 100) == |values| - 1;
  }
}
