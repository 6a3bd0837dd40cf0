/** The time the counter counts: between two calls whole microseconds only. The counter is the ideal one on that time,
    which falls behind the clock, so that it reads at least the sum of the decayed samples; when it reads exactly that,
    when reads are free of effect and when it is bounded follows from the times of the calls. */
module DecayCounted {
  import opened Fadings
  import opened DecayingRates
  import opened DecayIdeals

  function Gap(a: nat, b: nat): nat { Between(Nanos, a, b) }

  /** The microseconds counted from a call to time t, with these calls in between. */
  function Passed(from: nat, ops: seq<Op>, t: nat): nat
    decreases |ops|
  {
    if ops == [] then Gap(from, t) else Gap(from, ops[0].at) + Passed(ops[0].at, ops[1..], t)
  }

  /** The calls, at the times the counter counts. */
  function CountedFrom(base: nat, from: nat, ops: seq<Op>): (r: seq<Op>)
    ensures |r| == |ops|
    decreases |ops|
  {
    if ops == [] then []
    else
      var now := base + Gap(from, ops[0].at);
      [ops[0].(at := now)] + CountedFrom(now, ops[0].at, ops[1..])
  }

  function Counted(t0: nat, ops: seq<Op>): seq<Op> { CountedFrom(0, t0, ops) }

  function Ideal(rule: Rule): Rule { rule.(clock := Micros) }

  // ----- the counter is the ideal one on counted time -----

  lemma {:induction false} PassedSnoc(from: nat, ops: seq<Op>, op: Op, t: nat)
    ensures Passed(from, ops + [op], t) == Passed(from, ops, op.at) + Gap(op.at, t)
    decreases |ops|
  {
    if ops == [] {
      assert ([] + [op])[1..] == [];
    } else {
      PassedSnoc(ops[0].at, ops[1..], op, t);
      assert (ops + [op])[1..] == ops[1..] + [op];
    }
  }

  lemma {:induction false} CountedSnoc(base: nat, from: nat, ops: seq<Op>, op: Op)
    ensures CountedFrom(base, from, ops + [op]) ==
            CountedFrom(base, from, ops) + [op.(at := base + Passed(from, ops, op.at))]
    decreases |ops|
  {
    if ops == [] {
      assert ([] + [op])[1..] == [];
    } else {
      CountedSnoc(base + Gap(from, ops[0].at), ops[0].at, ops[1..], op);
      assert (ops + [op])[1..] == ops[1..] + [op];
    }
  }

  lemma {:induction false} CountedInOrder(base: nat, from: nat, ops: seq<Op>)
    ensures InOrder(base, CountedFrom(base, from, ops))
    decreases |ops|
  {
    if ops != [] { CountedInOrder(base + Gap(from, ops[0].at), ops[0].at, ops[1..]); }
  }

  /** Counted time at t, seen from the last call. */
  lemma PassedLast(t0: nat, ops: seq<Op>, t: nat)
    ensures Passed(t0, ops, t) == LastTime(0, Counted(t0, ops)) + Gap(LastTime(t0, ops), t)
  {
    if ops != [] {
      var front, op := ops[..|ops| - 1], ops[|ops| - 1];
      assert ops == front + [op];
      PassedSnoc(t0, front, op, t);
      CountedSnoc(0, t0, front, op);
    }
  }

  /** The counter and the ideal one hold the same value, both from the time of the last call on if they decay. */
  ghost predicate Alike(rule: Rule, s: State, last: nat, c: State, counted: nat) {
    s.value == c.value && (s.value > 0.0 && rule.on ==> s.last == last && c.last == counted)
  }

  lemma AlikeStep(rule: Rule, s: State, last: nat, c: State, counted: nat, op: Op)
    requires RuleOk(rule) && rule.clock == Nanos && Alike(rule, s, last, c, counted)
    ensures Alike(rule, Step(rule, s, op), op.at,
                  Step(Ideal(rule), c, op.(at := counted + Gap(last, op.at))), counted + Gap(last, op.at))
  {
  }

  lemma {:induction false} RunIsAlike(rule: Rule, t0: nat, ops: seq<Op>)
    requires RuleOk(rule) && rule.clock == Nanos
    ensures Alike(rule, Run(rule, t0, ops), LastTime(t0, ops),
                  Run(Ideal(rule), 0, Counted(t0, ops)), LastTime(0, Counted(t0, ops)))
    decreases |ops|
  {
    if ops != [] {
      var front, op := ops[..|ops| - 1], ops[|ops| - 1];
      RunIsAlike(rule, t0, front);
      AlikeStep(rule, Run(rule, t0, front), LastTime(t0, front),
                Run(Ideal(rule), 0, Counted(t0, front)), LastTime(0, Counted(t0, front)), op);
      assert ops == front + [op];
      CountedSnoc(0, t0, front, op);
      PassedLast(t0, front, op.at);
      var all := Counted(t0, ops);
      assert all[..|all| - 1] == Counted(t0, front);
    }
  }

  /** The counter reads what the ideal one reads on counted time, for calls at any times. */
  lemma RunIsCounted(d: Decay, t0: nat, ops: seq<Op>, t: nat)
    requires DecayOk(d)
    ensures var rule := RuleOf(d);
            ValueAt(rule, Run(rule, t0, ops), t) ==
            ValueAt(Ideal(rule), Run(Ideal(rule), 0, Counted(t0, ops)), Passed(t0, ops, t))
  {
    DecayIsOk(d);
    RunIsAlike(RuleOf(d), t0, ops);
    PassedLast(t0, ops, t);
  }

  // ----- sums by counted time -----

  /** The samples, each decayed by the microseconds counted for it. */
  function SumBy(f: Fading, ops: seq<Op>, counts: seq<nat>): real
    requires |counts| == |ops|
  {
    if ops == [] then 0.0
    else (if ops[0].Add? then f(counts[0], ops[0].sample) else 0.0) + SumBy(f, ops[1..], counts[1..])
  }

  /** What the counter counts from each call to time t. */
  function Counts(ops: seq<Op>, t: nat): (r: seq<nat>)
    ensures |r| == |ops|
  {
    if ops == [] then [] else [Passed(ops[0].at, ops[1..], t)] + Counts(ops[1..], t)
  }

  /** What it would count if there were no reads. */
  function CountsWithoutReads(ops: seq<Op>, t: nat): (r: seq<nat>)
    ensures |r| == |ops|
  {
    if ops == [] then [] else [Passed(ops[0].at, Adds(ops[1..]), t)] + CountsWithoutReads(ops[1..], t)
  }

  /** The whole microseconds from each call to time t. */
  function FullCounts(ops: seq<Op>, t: nat): (r: seq<nat>)
    ensures |r| == |ops|
  {
    if ops == [] then [] else [Gap(ops[0].at, t)] + FullCounts(ops[1..], t)
  }

  /** The calls that add, reads left out. */
  function Adds(ops: seq<Op>): seq<Op> {
    if ops == [] then [] else (if ops[0].Add? then [ops[0]] else []) + Adds(ops[1..])
  }

  /** Two ways of counting agree on every positive sample. */
  predicate Agree(ops: seq<Op>, a: seq<nat>, b: seq<nat>)
    requires |a| == |b| == |ops|
  {
    forall i :: 0 <= i < |ops| && ops[i].Add? && ops[i].sample > 0.0 ==> a[i] == b[i]
  }

  lemma {:induction false} SumSplit(f: Fading, op: Op, rest: seq<Op>, t: nat)
    ensures SumAt(f, [op] + rest, t) == Term(f, op, t) + SumAt(f, rest, t)
    decreases |rest|
  {
    var all := [op] + rest;
    if rest == [] {
      assert all[..0] == [];
      assert SumAt(f, [], t) == 0.0;
    } else {
      SumSplit(f, op, rest[..|rest| - 1], t);
      assert all[..|all| - 1] == [op] + rest[..|rest| - 1];
    }
  }

  lemma {:induction false} CountedSum(f: Fading, base: nat, from: nat, ops: seq<Op>, t: nat)
    ensures SumAt(f, CountedFrom(base, from, ops), base + Passed(from, ops, t)) == SumBy(f, ops, Counts(ops, t))
    decreases |ops|
  {
    if ops != [] {
      var now, op := base + Gap(from, ops[0].at), ops[0];
      CountedSum(f, now, op.at, ops[1..], t);
      SumSplit(f, op.(at := now), CountedFrom(now, op.at, ops[1..]), base + Passed(from, ops, t));
    }
  }

  lemma {:induction false} AddsSum(f: Fading, ops: seq<Op>, t: nat)
    ensures SumBy(f, Adds(ops), Counts(Adds(ops), t)) == SumBy(f, ops, CountsWithoutReads(ops, t))
    decreases |ops|
  {
    if ops != [] {
      AddsSum(f, ops[1..], t);
      if ops[0].Add? { assert Adds(ops)[1..] == Adds(ops[1..]); } else { assert Adds(ops) == Adds(ops[1..]); }
    }
  }

  // ----- counting less -----

  predicate NoMore(a: seq<nat>, b: seq<nat>) { |a| == |b| && forall i :: 0 <= i < |a| ==> a[i] <= b[i] }

  predicate Sorted(from: nat, ops: seq<Op>, t: nat)
    decreases |ops|
  {
    if ops == [] then from <= t else from <= ops[0].at && Sorted(ops[0].at, ops[1..], t)
  }

  lemma {:induction false} SortedEnds(from: nat, ops: seq<Op>, t: nat)
    requires Sorted(from, ops, t)
    ensures from <= t && forall i :: 0 <= i < |ops| ==> from <= ops[i].at <= t
    decreases |ops|
  {
    if ops != [] { SortedEnds(ops[0].at, ops[1..], t); }
  }

  lemma {:induction false} InOrderIsSorted(t0: nat, ops: seq<Op>, t: nat)
    requires InOrder(t0, ops) && LastTime(t0, ops) <= t
    ensures Sorted(t0, ops, t)
    decreases |ops|
  {
    if ops != [] { InOrderIsSorted(ops[0].at, ops[1..], t); }
  }

  lemma {:induction false} PassedIsLess(from: nat, ops: seq<Op>, t: nat)
    requires Sorted(from, ops, t)
    ensures Passed(from, ops, t) <= Gap(from, t)
    decreases |ops|
  {
    if ops != [] {
      PassedIsLess(ops[0].at, ops[1..], t);
      SortedEnds(ops[0].at, ops[1..], t);
      RoundedPartsAreLess(from, ops[0].at, t);
    }
  }

  lemma {:induction false} PassedThrough(from: nat, mid: nat, ops: seq<Op>, t: nat)
    requires from <= mid && Sorted(mid, ops, t)
    ensures Gap(from, mid) + Passed(mid, ops, t) <= Passed(from, ops, t)
  {
    if ops == [] { RoundedPartsAreLess(from, mid, t); } else { RoundedPartsAreLess(from, mid, ops[0].at); }
  }

  lemma {:induction false} AddsSorted(from: nat, ops: seq<Op>, t: nat)
    requires Sorted(from, ops, t)
    ensures Sorted(from, Adds(ops), t)
    decreases |ops|
  {
    if ops != [] {
      AddsSorted(ops[0].at, ops[1..], t);
      if ops[0].Add? {
        assert Adds(ops)[1..] == Adds(ops[1..]);
      } else {
        assert Adds(ops) == Adds(ops[1..]);
        SortedFrom(from, ops[0].at, Adds(ops[1..]), t);
      }
    }
  }

  lemma SortedFrom(from: nat, mid: nat, ops: seq<Op>, t: nat)
    requires from <= mid && Sorted(mid, ops, t)
    ensures Sorted(from, ops, t)
  {
  }

  lemma {:induction false} ReadsCountLess(from: nat, ops: seq<Op>, t: nat)
    requires Sorted(from, ops, t)
    ensures Passed(from, ops, t) <= Passed(from, Adds(ops), t)
    decreases |ops|
  {
    if ops != [] {
      var rest := ops[1..];
      ReadsCountLess(ops[0].at, rest, t);
      if ops[0].Add? {
        assert Adds(ops)[1..] == Adds(rest);
      } else {
        assert Adds(ops) == Adds(rest);
        AddsSorted(ops[0].at, rest, t);
        PassedThrough(from, ops[0].at, Adds(rest), t);
      }
    }
  }

  lemma {:induction false} CountsCompare(from: nat, ops: seq<Op>, t: nat)
    requires Sorted(from, ops, t)
    ensures NoMore(Counts(ops, t), CountsWithoutReads(ops, t)) && NoMore(Counts(ops, t), FullCounts(ops, t))
    decreases |ops|
  {
    if ops != [] {
      CountsCompare(ops[0].at, ops[1..], t);
      PassedIsLess(ops[0].at, ops[1..], t);
      ReadsCountLess(ops[0].at, ops[1..], t);
    }
  }

  /** Counting less decays less, and strictly so for a positive sample. */
  lemma {:induction false} SumsCompare(f: Fading, ops: seq<Op>, a: seq<nat>, b: seq<nat>)
    requires Lawful(f) && NonNegative(ops) && |a| == |ops| && NoMore(a, b)
    ensures SumBy(f, ops, a) >= SumBy(f, ops, b)
    ensures SumBy(f, ops, a) == SumBy(f, ops, b) <==> Agree(ops, a, b)
    decreases |ops|
  {
    if ops != [] {
      SumsCompare(f, ops[1..], a[1..], b[1..]);
      if ops[0].Add? { FadeStrictly(f, a[0], b[0], ops[0].sample); }
      AgreeSplit(ops, a, b);
    }
  }

  lemma AgreeSplit(ops: seq<Op>, a: seq<nat>, b: seq<nat>)
    requires |a| == |b| == |ops| && ops != []
    ensures Agree(ops, a, b) <==>
            (ops[0].Add? && ops[0].sample > 0.0 ==> a[0] == b[0]) && Agree(ops[1..], a[1..], b[1..])
  {
    if Agree(ops[1..], a[1..], b[1..]) && (ops[0].Add? && ops[0].sample > 0.0 ==> a[0] == b[0]) {
      forall i | 0 <= i < |ops| && ops[i].Add? && ops[i].sample > 0.0 ensures a[i] == b[i] {
        if i > 0 { assert ops[1..][i - 1] == ops[i] && a[1..][i - 1] == a[i] && b[1..][i - 1] == b[i]; }
      }
    }
  }

  lemma {:induction false} SumsWithoutDecay(f: Fading, ops: seq<Op>, a: seq<nat>, b: seq<nat>)
    requires Keeps(f) && |a| == |b| == |ops|
    ensures SumBy(f, ops, a) == SumBy(f, ops, b)
    decreases |ops|
  {
    if ops != [] { SumsWithoutDecay(f, ops[1..], a[1..], b[1..]); }
  }
}
