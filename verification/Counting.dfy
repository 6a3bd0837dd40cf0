/** Counting occurrences and matching braces in source text (xtask/src/compat_debt_report.rs). */
module Counting {
  import opened Wrappers

  predicate OccursAt(text: string, needle: string, i: nat) {
    i + |needle| <= |text| && text[i..i + |needle|] == needle
  }

  /** The first occurrence from a position on. */
  function FirstFrom(text: string, needle: string, from: nat): (r: Option<nat>)
    requires from <= |text|
    ensures r.Some? ==> from <= r.value && OccursAt(text, needle, r.value)
    ensures forall i :: from <= i && OccursAt(text, needle, i) ==> r.Some? && r.value <= i
    decreases |text| - from
  {
    if OccursAt(text, needle, from) then Some(from)
    else if from == |text| then None
    else FirstFrom(text, needle, from + 1)
  }

  /** Occurrences taken from left to right, each after the end of the one before. */
  function Greedy(text: string, needle: string, from: nat): nat
    requires from <= |text| && needle != []
    decreases |text| - from
  {
    match FirstFrom(text, needle, from)
    case None => 0
    case Some(i) => 1 + Greedy(text, needle, i + |needle|)
  }

  lemma OccursInRest(text: string, needle: string, from: nat, i: nat)
    requires from <= |text|
    ensures OccursAt(text[from..], needle, i) <==> OccursAt(text, needle, from + i)
  {
    if from + i + |needle| <= |text| { assert text[from..][i..i + |needle|] == text[from + i..from + i + |needle|]; }
  }

  lemma FirstInRest(text: string, needle: string, from: nat)
    requires from <= |text|
    ensures FirstFrom(text[from..], needle, 0)
         == if FirstFrom(text, needle, from).Some? then Some(FirstFrom(text, needle, from).value - from) else None
  {
    var here, there := FirstFrom(text[from..], needle, 0), FirstFrom(text, needle, from);
    if there.Some? { OccursInRest(text, needle, from, there.value - from); }
    if here.Some? { OccursInRest(text, needle, from, here.value); }
  }

  method CountOccurrences(haystack: string, needle: string) returns (count: nat)
    ensures count == if needle == [] then 0 else Greedy(haystack, needle, 0)
  {
    if needle == "" {
      return 0;
    }
    count := 0;
    var rest := haystack;
    ghost var from: nat := 0;
    while true
      invariant from <= |haystack| && rest == haystack[from..]
      invariant count + Greedy(haystack, needle, from) == Greedy(haystack, needle, 0)
      decreases |rest|
    {
      FirstInRest(haystack, needle, from);
      var found := FirstFrom(rest, needle, 0);
      if found.None? {
        return;
      }
      count := count + 1;
      assert rest[found.value + |needle|..] == haystack[from + found.value + |needle|..];
      rest := rest[found.value + |needle|..];
      from := from + found.value + |needle|;
    }
  }

  // ----- optimality -----

  /** A set of occurrences no two of which overlap. */
  ghost predicate Packing(text: string, needle: string, s: set<nat>) {
    && (forall p :: p in s ==> OccursAt(text, needle, p))
    && (forall p, q :: p in s && q in s && p < q ==> p + |needle| <= q)
  }

  lemma {:induction false} NoPackingIsLarger(text: string, needle: string, from: nat, s: set<nat>)
    requires from <= |text| && needle != [] && Packing(text, needle, s) && forall p :: p in s ==> from <= p
    ensures |s| <= Greedy(text, needle, from)
    decreases |text| - from
  {
    var first := FirstFrom(text, needle, from);
    if first.None? {
      assert s == {};
    } else {
      var next := first.value + |needle|;
      var later := set p | p in s && p >= next;
      NoPackingIsLarger(text, needle, next, later);
      AtMostOneBefore(text, needle, s, first.value, later);
    }
  }

  lemma AtMostOneBefore(text: string, needle: string, s: set<nat>, first: nat, later: set<nat>)
    requires Packing(text, needle, s) && (forall p :: p in s ==> first <= p)
    requires later == set p | p in s && p >= first + |needle|
    ensures |s| <= |later| + 1
  {
    if exists p :: p in s && p < first + |needle| {
      var p :| p in s && p < first + |needle|;
      forall q | q in s - {p} ensures q in later {
        assert p < q ==> p + |needle| <= q;
        assert q < p ==> q + |needle| <= p;
      }
      assert s == later + {p};
    } else {
      assert s == later;
    }
  }

  lemma {:induction false} GreedyIsAPacking(text: string, needle: string, from: nat) returns (s: set<nat>)
    requires from <= |text| && needle != []
    ensures Packing(text, needle, s) && |s| == Greedy(text, needle, from) && forall p :: p in s ==> from <= p
    decreases |text| - from
  {
    var first := FirstFrom(text, needle, from);
    if first.None? {
      s := {};
    } else {
      var rest := GreedyIsAPacking(text, needle, first.value + |needle|);
      PackingCons(text, needle, first.value, rest);
      s := {first.value} + rest;
    }
  }

  lemma PackingCons(text: string, needle: string, first: nat, rest: set<nat>)
    requires needle != [] && OccursAt(text, needle, first) && Packing(text, needle, rest)
    requires forall p :: p in rest ==> first + |needle| <= p
    ensures Packing(text, needle, {first} + rest) && |{first} + rest| == |rest| + 1
  {
    assert first !in rest;
  }

  /** Greedy counting finds as many occurrences as any choice without overlaps can have. */
  lemma GreedyIsOptimal(text: string, needle: string)
    requires needle != []
    ensures forall s :: Packing(text, needle, s) ==> |s| <= Greedy(text, needle, 0)
    ensures exists s :: Packing(text, needle, s) && |s| == Greedy(text, needle, 0)
  {
    forall s | Packing(text, needle, s) ensures |s| <= Greedy(text, needle, 0) {
      NoPackingIsLarger(text, needle, 0, s);
    }
    var s := GreedyIsAPacking(text, needle, 0);
  }

  // ----- braces -----

  function Balance(s: string): int {
    if s == [] then 0
    else Balance(s[..|s| - 1]) + (if s[|s| - 1] == '{' then 1 else if s[|s| - 1] == '}' then -1 else 0)
  }

  /** The brace that closes a block opened just before the text: the first place where closing braces outnumber
      opening ones. */
  method FindMatchingCloseBrace(body: string) returns (r: Option<nat>)
    ensures r.Some? ==> r.value < |body| && body[r.value] == '}' && Balance(body[..r.value + 1]) == -1
    ensures forall k :: 0 <= k <= (if r.Some? then r.value else |body|) ==> Balance(body[..k]) >= 0
  {
    var depth := 1;
    for i := 0 to |body|
      invariant depth == 1 + Balance(body[..i]) && depth >= 1
      invariant forall k :: 0 <= k <= i ==> Balance(body[..k]) >= 0
    {
      assert body[..i + 1][..i] == body[..i];
      if body[i] == '{' {
        depth := depth + 1;
      } else if body[i] == '}' {
        depth := depth - 1;
        if depth == 0 {
          return Some(i);
        }
      }
    }
    return None;
  }
}
