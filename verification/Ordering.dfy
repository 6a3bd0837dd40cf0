/** Strings in lexicographic order of their scalar values, the iteration order of the ordered maps the tools use. */
module Ordering {

  predicate LexLe(a: string, b: string) {
    if a == [] then true
    else if b == [] then false
    else if a[0] != b[0] then a[0] < b[0]
    else LexLe(a[1..], b[1..])
  }

  predicate LexLt(a: string, b: string) { a != b && LexLe(a, b) }

  /** Where two strings part: the first is a prefix of the second, or has the lesser character where they first
      differ. */
  ghost predicate PartsBelow(a: string, b: string) {
    || (|a| < |b| && a == b[..|a|])
    || exists k :: 0 <= k < |a| && k < |b| && a[..k] == b[..k] && a[k] < b[k]
  }

  /** The order is that of the first difference. */
  lemma {:induction false} LexLtIs(a: string, b: string)
    ensures LexLt(a, b) <==> PartsBelow(a, b)
    decreases |a|
  {
    if a == [] || b == [] {
      if a == [] && b != [] { assert b[..0] == []; }
    } else if a[0] != b[0] {
      if a[0] < b[0] { assert a[..0] == b[..0]; }
      if PartsBelow(a, b) { FirstIsNotAbove(a, b); }
    } else {
      LexLtIs(a[1..], b[1..]);
      PartsBelowCons(a, b);
    }
  }

  lemma FirstIsNotAbove(a: string, b: string)
    requires a != [] && b != [] && PartsBelow(a, b)
    ensures a[0] <= b[0]
  {
    if |a| < |b| && a == b[..|a|] {
      assert a[0] == b[..|a|][0];
    } else {
      var k :| 0 <= k < |a| && k < |b| && a[..k] == b[..k] && a[k] < b[k];
      assert k > 0 ==> a[..k][0] == b[..k][0];
    }
  }

  lemma PartsBelowCons(a: string, b: string)
    requires a != [] && b != [] && a[0] == b[0]
    ensures PartsBelow(a, b) <==> PartsBelow(a[1..], b[1..])
  {
    var x, y := a[1..], b[1..];
    assert a == [a[0]] + x && b == [b[0]] + y;
    if |a| < |b| && a == b[..|a|] { assert x == y[..|x|]; }
    if |x| < |y| && x == y[..|x|] { assert a == b[..|a|]; }
    if k :| 0 <= k < |a| && k < |b| && a[..k] == b[..k] && a[k] < b[k] {
      assert a[1..k] == b[1..k];
      assert x[..k - 1] == a[1..k] && y[..k - 1] == b[1..k] && x[k - 1] < y[k - 1];
    }
    if k :| 0 <= k < |x| && k < |y| && x[..k] == y[..k] && x[k] < y[k] {
      assert a[..k + 1] == [a[0]] + x[..k] && b[..k + 1] == [b[0]] + y[..k] && a[k + 1] < b[k + 1];
    }
  }

  lemma {:induction false} LexRefl(a: string)
    ensures LexLe(a, a)
  {
    if a != [] { LexRefl(a[1..]); }
  }

  lemma {:induction false} LexTotal(a: string, b: string)
    ensures LexLe(a, b) || LexLe(b, a)
  {
    if a != [] && b != [] && a[0] == b[0] { LexTotal(a[1..], b[1..]); }
  }

  lemma {:induction false} LexAntisym(a: string, b: string)
    requires LexLe(a, b) && LexLe(b, a)
    ensures a == b
  {
    if a != [] {
      LexAntisym(a[1..], b[1..]);
      assert a == [a[0]] + a[1..] && b == [b[0]] + b[1..];
    }
  }

  lemma {:induction false} LexTrans(a: string, b: string, c: string)
    requires LexLe(a, b) && LexLe(b, c)
    ensures LexLe(a, c)
  {
    if a != [] && a[0] == b[0] && b[0] == c[0] { LexTrans(a[1..], b[1..], c[1..]); }
  }

  predicate IsLeast(x: string, s: set<string>) { x in s && forall y :: y in s ==> LexLe(x, y) }

  lemma LeastOfTwo(x: string, z: string, s: set<string>) returns (least: string)
    requires z in s && IsLeast(x, s - {z})
    ensures IsLeast(least, s)
  {
    LexRefl(z);
    LexTotal(x, z);
    if LexLe(x, z) {
      return x;
    }
    forall y | y in s ensures LexLe(z, y) {
      if y != z { LexTrans(z, x, y); }
    }
    return z;
  }

  lemma {:induction false} LeastExists(s: set<string>)
    requires s != {}
    ensures exists x :: IsLeast(x, s)
    decreases |s|
  {
    var z :| z in s;
    if s == {z} {
      LexRefl(z);
      assert IsLeast(z, s);
    } else {
      LeastExists(s - {z});
      var x :| IsLeast(x, s - {z});
      var least := LeastOfTwo(x, z, s);
    }
  }

  lemma LeastUnique(a: string, b: string, s: set<string>)
    requires IsLeast(a, s) && IsLeast(b, s)
    ensures a == b
  {
    LexAntisym(a, b);
  }

  function Least(s: set<string>): (x: string)
    requires s != {}
    ensures IsLeast(x, s)
  {
    LeastExists(s);
    assert forall a, b :: IsLeast(a, s) && IsLeast(b, s) ==> a == b by {
      forall a, b | IsLeast(a, s) && IsLeast(b, s) ensures a == b { LeastUnique(a, b, s); }
    }
    var x :| x in s && IsLeast(x, s);
    x
  }

  /** The keys of an ordered map in iteration order. */
  function Sorted(s: set<string>): (r: seq<string>)
    ensures forall k :: k in r <==> k in s
    ensures |r| == |s|
    ensures forall i, j :: 0 <= i < j < |r| ==> LexLt(r[i], r[j])
    decreases |s|
  {
    if s == {} then []
    else
      var x := Least(s);
      var rest := Sorted(s - {x});
      var r := [x] + rest;
      assert forall i, j :: 0 <= i < j < |r| ==> LexLt(r[i], r[j]) by {
        forall i, j | 0 <= i < j < |r| ensures LexLt(r[i], r[j]) {
          assert r[j] == rest[j - 1] && rest[j - 1] in rest;
          assert i > 0 ==> r[i] == rest[i - 1];
        }
      }
      r
  }
}
