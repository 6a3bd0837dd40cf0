/** What the rate counter reads, from the times of its calls and their samples. */
module DecayReadings {
  import opened Fadings
  import opened DecayingRates
  import opened DecayIdeals
  import opened DecayCounted

  /** What a read at time t returns after these calls on a counter made at time t0. */
  function Reading(d: Decay, t0: nat, ops: seq<Op>, t: nat): real { ValueAt(RuleOf(d), Run(RuleOf(d), t0, ops), t) }

  // ----- the closed form -----

  /** For calls at any times and any samples: the counter never reads more than the sum of all samples, each decayed by
      the microseconds counted since, and reads exactly that when and only when there is no decay or no microsecond was
      counted while the sum was negative. */
  lemma LazyDecayIsExact(d: Decay, t0: nat, ops: seq<Op>, t: nat)
    requires DecayOk(d)
    ensures Reading(d, t0, ops, t) <= SumBy(Fade(d), ops, Counts(ops, t))
    ensures Reading(d, t0, ops, t) == SumBy(Fade(d), ops, Counts(ops, t))
       <==> d.Off? || Steady(Fade(d), 0, Counted(t0, ops), Passed(t0, ops, t))
  {
    DecayIsOk(d);
    RunIsCounted(d, t0, ops, t);
    CountedInOrder(0, t0, ops);
    PassedLast(t0, ops, t);
    CountedSum(Fade(d), 0, t0, ops, t);
    RuleIsExact(Ideal(RuleOf(d)), 0, Counted(t0, ops), Passed(t0, ops, t));
  }

  lemma {:induction false} CountedNonNegative(base: nat, from: nat, ops: seq<Op>)
    requires NonNegative(ops)
    ensures NonNegative(CountedFrom(base, from, ops))
    decreases |ops|
  {
    if ops != [] { CountedNonNegative(base + Gap(from, ops[0].at), ops[0].at, ops[1..]); }
  }

  lemma CountedSumIsRead(d: Decay, t0: nat, ops: seq<Op>, t: nat)
    requires DecayOk(d) && NonNegative(ops)
    ensures Reading(d, t0, ops, t) == SumBy(Fade(d), ops, Counts(ops, t))
  {
    LazyDecayIsExact(d, t0, ops, t);
    if d.Factor? {
      DecayIsLawful(d);
      CountedNonNegative(0, t0, ops);
      NonNegativeIsSteady(Fade(d), 0, Counted(t0, ops), Passed(t0, ops, t));
    }
  }

  /** For calls in the order of their times and samples that are not negative: the counter reads at least the sum of
      all samples, each decayed by the whole microseconds since, and exactly that when and only when there is no decay
      or, for every positive sample, the gaps between the calls since add up to those microseconds. */
  lemma LazyDecayIsTheSum(d: Decay, t0: nat, ops: seq<Op>, t: nat)
    requires DecayOk(d) && InOrder(t0, ops) && NonNegative(ops) && LastTime(t0, ops) <= t
    ensures Reading(d, t0, ops, t) >= SumBy(Fade(d), ops, FullCounts(ops, t))
    ensures Reading(d, t0, ops, t) == SumBy(Fade(d), ops, FullCounts(ops, t))
       <==> d.Off? || Agree(ops, Counts(ops, t), FullCounts(ops, t))
  {
    DecayIsLawful(d);
    CountedSumIsRead(d, t0, ops, t);
    InOrderIsSorted(t0, ops, t);
    CountsCompare(t0, ops, t);
    if d.Factor? {
      SumsCompare(Fade(d), ops, Counts(ops, t), FullCounts(ops, t));
    } else {
      SumsWithoutDecay(Fade(d), ops, Counts(ops, t), FullCounts(ops, t));
    }
  }

  lemma {:induction false} AddsNonNegative(ops: seq<Op>)
    requires NonNegative(ops)
    ensures NonNegative(Adds(ops))
    decreases |ops|
  {
    if ops != [] { AddsNonNegative(ops[1..]); }
  }

  /** Reads never lower a later reading, and leave it as it would be without them when and only when there is no decay
      or, for every positive sample, no microsecond since is lost to a read. */
  lemma ReadsChangeNothing(d: Decay, t0: nat, ops: seq<Op>, t: nat)
    requires DecayOk(d) && InOrder(t0, ops) && NonNegative(ops) && LastTime(t0, ops) <= t
    ensures Reading(d, t0, ops, t) >= Reading(d, t0, Adds(ops), t)
    ensures Reading(d, t0, ops, t) == Reading(d, t0, Adds(ops), t)
       <==> d.Off? || Agree(ops, Counts(ops, t), CountsWithoutReads(ops, t))
  {
    DecayIsLawful(d);
    AddsNonNegative(ops);
    CountedSumIsRead(d, t0, ops, t);
    CountedSumIsRead(d, t0, Adds(ops), t);
    AddsSum(Fade(d), ops, t);
    InOrderIsSorted(t0, ops, t);
    CountsCompare(t0, ops, t);
    if d.Factor? {
      SumsCompare(Fade(d), ops, Counts(ops, t), CountsWithoutReads(ops, t));
    } else {
      SumsWithoutDecay(Fade(d), ops, Counts(ops, t), CountsWithoutReads(ops, t));
    }
  }

  // ----- calls whole microseconds apart -----

  predicate WholeTimes(from: nat, ops: seq<Op>, t: nat)
    decreases |ops|
  {
    if ops == [] then from <= t && (t - from) % 1000 == 0
    else from <= ops[0].at && (ops[0].at - from) % 1000 == 0 && WholeTimes(ops[0].at, ops[1..], t)
  }

  lemma {:induction false} WholePassed(from: nat, ops: seq<Op>, t: nat)
    requires WholeTimes(from, ops, t)
    ensures from <= t && (t - from) % 1000 == 0 && Passed(from, ops, t) == Gap(from, t)
    decreases |ops|
  {
    if ops != [] { WholePassed(ops[0].at, ops[1..], t); }
  }

  lemma {:induction false} WholeAdds(from: nat, ops: seq<Op>, t: nat)
    requires WholeTimes(from, ops, t)
    ensures WholeTimes(from, Adds(ops), t)
    decreases |ops|
  {
    if ops != [] {
      WholeAdds(ops[0].at, ops[1..], t);
      if ops[0].Add? {
        assert Adds(ops)[1..] == Adds(ops[1..]);
      } else {
        assert Adds(ops) == Adds(ops[1..]);
        WholeFrom(from, ops[0].at, Adds(ops[1..]), t);
      }
    }
  }

  lemma WholeFrom(from: nat, mid: nat, ops: seq<Op>, t: nat)
    requires from <= mid && (mid - from) % 1000 == 0 && WholeTimes(mid, ops, t)
    ensures WholeTimes(from, ops, t)
  {
  }

  lemma {:induction false} WholeCounts(from: nat, ops: seq<Op>, t: nat)
    requires WholeTimes(from, ops, t)
    ensures Counts(ops, t) == FullCounts(ops, t) == CountsWithoutReads(ops, t)
    decreases |ops|
  {
    if ops != [] {
      var rest := ops[1..];
      WholeCounts(ops[0].at, rest, t);
      WholePassed(ops[0].at, rest, t);
      WholeAdds(ops[0].at, rest, t);
      WholePassed(ops[0].at, Adds(rest), t);
    }
  }

  /** With calls whole microseconds apart nothing is lost: the reading is at most the sum of all samples, each decayed
      from its own time, and is that sum, whatever the reads, for samples that are not negative. */
  lemma WholeMicrosecondsAreExact(d: Decay, t0: nat, ops: seq<Op>, t: nat)
    requires DecayOk(d) && WholeTimes(t0, ops, t)
    ensures Reading(d, t0, ops, t) <= SumBy(Fade(d), ops, FullCounts(ops, t))
    ensures NonNegative(ops) ==>
              && Reading(d, t0, ops, t) == SumBy(Fade(d), ops, FullCounts(ops, t))
              && Reading(d, t0, Adds(ops), t) == Reading(d, t0, ops, t)
  {
    WholeCounts(t0, ops, t);
    LazyDecayIsExact(d, t0, ops, t);
    if NonNegative(ops) {
      AddsNonNegative(ops);
      CountedSumIsRead(d, t0, ops, t);
      CountedSumIsRead(d, t0, Adds(ops), t);
      AddsSum(Fade(d), ops, t);
    }
  }

  // ----- bounds -----

  /** Samples of at most `most` in each counted microsecond keep the reading at most `most / (1 - r)`. */
  lemma ReadingIsBounded(r: real, t0: nat, ops: seq<Op>, t: nat, most: real)
    requires 0.0 < r < 1.0 && NonNegative(ops) && most >= 0.0
    requires forall u: nat :: AtTick(Counted(t0, ops), u) <= most
    ensures Reading(Factor(r), t0, ops, t) <= most / (1.0 - r)
  {
    var f := Fade(Factor(r));
    DecayIsLawful(Factor(r));
    CountedSumIsRead(Factor(r), t0, ops, t);
    CountedSum(f, 0, t0, ops, t);
    Level(r, most);
    SumIsBounded(f, Counted(t0, ops), Passed(t0, ops, t), most, most / (1.0 - r));
  }

  lemma {:induction false} WholeCounted(base: nat, from: nat, ops: seq<Op>, t: nat, i: nat)
    requires WholeTimes(from, ops, t) && i < |ops|
    ensures var c := CountedFrom(base, from, ops)[i];
            c == ops[i].(at := c.at) && base <= c.at && ops[i].at == from + 1000 * (c.at - base)
    decreases |ops|
  {
    if i > 0 { WholeCounted(base + Gap(from, ops[0].at), ops[0].at, ops[1..], t, i - 1); }
  }

  lemma {:induction false} SameTick(t0: nat, ops: seq<Op>, counted: seq<Op>, u: nat)
    requires |counted| == |ops|
    requires forall i :: 0 <= i < |ops| ==>
               counted[i] == ops[i].(at := counted[i].at) && ops[i].at == t0 + 1000 * counted[i].at
    ensures AtTick(counted, u) == AtTick(ops, t0 + 1000 * u)
    decreases |ops|
  {
    if ops != [] {
      var n := |ops| - 1;
      SameTick(t0, ops[..n], counted[..n], u);
      assert counted[n] == ops[n].(at := counted[n].at);
    }
  }

  /** Samples of at most `most` at each time, in calls whole microseconds apart, keep the reading at most
      `most / (1 - r)`. */
  lemma WholeIsBounded(r: real, t0: nat, ops: seq<Op>, t: nat, most: real)
    requires 0.0 < r < 1.0 && NonNegative(ops) && WholeTimes(t0, ops, t) && most >= 0.0
    requires forall u: nat :: AtTick(ops, u) <= most
    ensures Reading(Factor(r), t0, ops, t) <= most / (1.0 - r)
  {
    var counted := Counted(t0, ops);
    forall i | 0 <= i < |ops|
      ensures counted[i] == ops[i].(at := counted[i].at) && ops[i].at == t0 + 1000 * counted[i].at
    {
      WholeCounted(0, t0, ops, t, i);
    }
    forall u: nat ensures AtTick(counted, u) <= most { SameTick(t0, ops, counted, u); }
    ReadingIsBounded(r, t0, ops, t, most);
  }

  /** Each call a microsecond or more after the one before. */
  predicate Spaced(ops: seq<Op>) { forall i :: 0 < i < |ops| ==> ops[i - 1].at + 1000 <= ops[i].at }

  predicate AtMost(ops: seq<Op>, most: real) { forall i :: 0 <= i < |ops| && ops[i].Add? ==> ops[i].sample <= most }

  predicate Rises(ops: seq<Op>) { forall i, j :: 0 <= i < j < |ops| ==> ops[i].at < ops[j].at }

  lemma {:induction false} SpacedRises(base: nat, from: nat, ops: seq<Op>, most: real)
    requires Spaced(ops) && AtMost(ops, most)
    ensures Rises(CountedFrom(base, from, ops)) && AtMost(CountedFrom(base, from, ops), most)
    decreases |ops|
  {
    if ops != [] {
      var now, rest := base + Gap(from, ops[0].at), ops[1..];
      forall i | 0 < i < |rest| ensures rest[i - 1].at + 1000 <= rest[i].at {
        assert ops[i].at + 1000 <= ops[i + 1].at;
      }
      SpacedRises(now, ops[0].at, rest, most);
      CountedInOrder(now, ops[0].at, rest);
      FirstLater(now, ops[0].at, rest);
    }
  }

  lemma FirstLater(base: nat, from: nat, ops: seq<Op>)
    requires ops != [] ==> from + 1000 <= ops[0].at
    ensures forall i :: 0 <= i < |ops| ==> base < CountedFrom(base, from, ops)[i].at
  {
    if ops != [] { CountedInOrder(base + Gap(from, ops[0].at), ops[0].at, ops[1..]); }
  }

  lemma {:induction false} OnceATick(ops: seq<Op>, u: nat, most: real)
    requires Rises(ops) && AtMost(ops, most) && most >= 0.0
    ensures AtTick(ops, u) <= most && ((forall i :: 0 <= i < |ops| ==> ops[i].at < u) ==> AtTick(ops, u) == 0.0)
    decreases |ops|
  {
    if ops != [] { OnceATick(ops[..|ops| - 1], u, most); }
  }

  /** Samples of at most `most`, in calls at least a microsecond apart, keep the reading at most `most / (1 - r)`. */
  lemma SpacedIsBounded(r: real, t0: nat, ops: seq<Op>, t: nat, most: real)
    requires 0.0 < r < 1.0 && NonNegative(ops) && Spaced(ops) && AtMost(ops, most) && most >= 0.0
    ensures Reading(Factor(r), t0, ops, t) <= most / (1.0 - r)
  {
    SpacedRises(0, t0, ops, most);
    forall u: nat ensures AtTick(Counted(t0, ops), u) <= most { OnceATick(Counted(t0, ops), u, most); }
    ReadingIsBounded(r, t0, ops, t, most);
  }

  // ----- time lost -----

  /** Each call less than a microsecond after the one before. */
  predicate Rapid(ops: seq<Op>) { forall i :: 0 < i < |ops| ==> ops[i].at < ops[i - 1].at + 1000 }

  /** Rapid calls never decay, however many: the value is the total of the samples. */
  lemma {:induction false} RapidCallsNeverDecay(d: Decay, t0: nat, ops: seq<Op>)
    requires DecayOk(d) && Rapid(ops)
    ensures Run(RuleOf(d), t0, ops).value == Total(ops)
    decreases |ops|
  {
    if ops != [] {
      var rule, front, op := RuleOf(d), ops[..|ops| - 1], ops[|ops| - 1];
      RapidCallsNeverDecay(d, t0, front);
      DecayIsOk(d);
      RunIsAlike(rule, t0, front);
      if front != [] && d.Factor? {
        assert Between(Nanos, LastTime(t0, front), op.at) == 0;
        assert AtOnce(rule.f, Run(rule, t0, front).value);
      }
    }
  }

  /** Samples of 1 every half microsecond. */
  function Burst(n: nat): (r: seq<Op>) { seq(n, i requires 0 <= i < n => Add(500 * i, 1.0)) }

  lemma {:induction false} BurstTotal(n: nat)
    ensures Total(Burst(n)) == n as real
  {
    if n > 0 {
      BurstTotal(n - 1);
      assert Burst(n)[..n - 1] == Burst(n - 1);
    }
  }

  /** Every microsecond gets at most 2, yet the reading has no bound, and from the third sample on it is more than the
      sum of what is left of the samples. */
  lemma BurstIsNotBounded(r: real, n: nat)
    requires 0.0 < r < 1.0 && n > 0
    ensures var t := 500 * (n - 1);
            && Reading(Factor(r), 0, Burst(n), t) == n as real
            && (n > 2 ==>
                  Reading(Factor(r), 0, Burst(n), t) > SumBy(Fade(Factor(r)), Burst(n), FullCounts(Burst(n), t)))
  {
    var d, ops, t := Factor(r), Burst(n), 500 * (n - 1);
    RapidCallsNeverDecay(d, 0, ops);
    BurstTotal(n);
    DecayIsLawful(d);
    assert AtOnce(Fade(d), n as real);
    LazyDecayIsTheSum(d, 0, ops, t);
    if n > 2 { BurstLosesTime(n); }
  }

  lemma {:induction false} RapidPassed(from: nat, ops: seq<Op>, t: nat)
    requires Rapid([Peek(from)] + ops + [Peek(t)])
    ensures Passed(from, ops, t) == 0
    decreases |ops|
  {
    var all := [Peek(from)] + ops + [Peek(t)];
    assert all[1].at < all[0].at + 1000;
    if ops != [] {
      var next := [Peek(ops[0].at)] + ops[1..] + [Peek(t)];
      forall i | 0 < i < |next| ensures next[i].at < next[i - 1].at + 1000 {
        assert all[i + 1].at == next[i].at && all[i].at == next[i - 1].at;
        assert all[i + 1].at < all[i].at + 1000;
      }
      RapidPassed(ops[0].at, ops[1..], t);
    }
  }

  lemma BurstLosesTime(n: nat)
    requires n > 2
    ensures !Agree(Burst(n), Counts(Burst(n), 500 * (n - 1)), FullCounts(Burst(n), 500 * (n - 1)))
  {
    var ops, t := Burst(n), 500 * (n - 1);
    var all := [Peek(0)] + ops[1..] + [Peek(t)];
    forall i | 0 < i < |all| ensures all[i].at < all[i - 1].at + 1000 { }
    RapidPassed(0, ops[1..], t);
    assert Counts(ops, t)[0] == 0 && FullCounts(ops, t)[0] == Gap(0, t) >= 1;
  }

  /** A read between whole microseconds does change what is read later. */
  lemma ReadStopsDecay(r: real)
    requires 0.0 < r < 1.0
    ensures Reading(Factor(r), 0, [Add(0, 1.0)], 1000) == r
    ensures Reading(Factor(r), 0, [Add(0, 1.0), Peek(500)], 1000) == 1.0
  {
    var ops := [Add(0, 1.0), Peek(500)];
    assert ops[..1] == [Add(0, 1.0)] && [Add(0, 1.0)][..0] == [];
    assert Pow(r, 1) == r * Pow(r, 0);
    var rule := RuleOf(Factor(r));
    assert Run(rule, 0, [Add(0, 1.0)]) == State(1.0, 0);
    assert Run(rule, 0, ops) == State(1.0, 500);
  }

  /** A negative sample is kept whole while it should fade. */
  lemma NegativeSamplesDoNotFade(r: real)
    requires 0.0 < r < 1.0
    ensures var d, ops := Factor(r), [Add(0, -1.0)];
            Reading(d, 0, ops, 1000) == -1.0 && SumBy(Fade(d), ops, FullCounts(ops, 1000)) == -r
  {
    var ops := [Add(0, -1.0)];
    assert ops[..0] == [] && ops[1..] == [];
    assert Run(RuleOf(Factor(r)), 0, ops) == State(-1.0, 0);
    assert Pow(r, 1) == r * Pow(r, 0);
    assert FullCounts(ops, 1000)[1..] == [];
  }
}
