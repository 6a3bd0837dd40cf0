/** The string operations the tools use, on sequences of Unicode scalar values. */
module Text {

  /** Unicode White_Space, the class `trim` removes. */
  predicate IsSpace(c: char) {
    || '\t' <= c <= '\r'
    || c == ' '
    || c == '\U{0085}' || c == '\U{00A0}' || c == '\U{1680}'
    || '\U{2000}' <= c <= '\U{200A}'
    || c == '\U{2028}' || c == '\U{2029}' || c == '\U{202F}' || c == '\U{205F}' || c == '\U{3000}'
  }

  predicate IsDigit(c: char) { '0' <= c <= '9' }
  predicate IsUpper(c: char) { 'A' <= c <= 'Z' }
  predicate IsLower(c: char) { 'a' <= c <= 'z' }
  predicate IsAlnum(c: char) { IsDigit(c) || IsUpper(c) || IsLower(c) }

  function Lower(c: char): char { if IsUpper(c) then c + 32 as char else c }
  function Upper(c: char): char { if IsLower(c) then c - 32 as char else c }

  function ToLower(s: string): (r: string) { seq(|s|, i requires 0 <= i < |s| => Lower(s[i])) }
  function ToUpper(s: string): (r: string) { seq(|s|, i requires 0 <= i < |s| => Upper(s[i])) }

  function TrimStart(s: string): string {
    if s != [] && IsSpace(s[0]) then TrimStart(s[1..]) else s
  }

  function TrimEnd(s: string): string {
    if s != [] && IsSpace(s[|s| - 1]) then TrimEnd(s[..|s| - 1]) else s
  }

  function Trim(s: string): string { TrimEnd(TrimStart(s)) }

  predicate Blank(s: string) { Trim(s) == [] }

  predicate EndsWith(s: string, suffix: string) {
    |suffix| <= |s| && s[|s| - |suffix|..] == suffix
  }

  /** The pieces between separators; there is always at least one. */
  function Split(s: string, sep: char): (r: seq<string>)
    ensures r != []
  {
    if s == [] then [""]
    else
      var rest := Split(s[1..], sep);
      if s[0] == sep then [""] + rest else [[s[0]] + rest[0]] + rest[1..]
  }

  function Join(parts: seq<string>, sep: string): string {
    if parts == [] then ""
    else if |parts| == 1 then parts[0]
    else parts[0] + sep + Join(parts[1..], sep)
  }

  function Concat(parts: seq<string>): string {
    if parts == [] then "" else parts[0] + Concat(parts[1..])
  }

  lemma {:induction false} SplitNone(s: string, sep: char)
    requires sep !in s
    ensures Split(s, sep) == [s]
    decreases |s|
  {
    if s != [] {
      SplitNone(s[1..], sep);
      assert [s[0]] + s[1..] == s;
    }
  }

  lemma {:induction false} SplitAround(a: string, b: string, sep: char)
    ensures Split(a + [sep] + b, sep) == Split(a, sep) + Split(b, sep)
    decreases |a|
  {
    var s := a + [sep] + b;
    if a == [] {
      assert s[1..] == b;
    } else {
      assert s[1..] == a[1..] + [sep] + b;
      SplitAround(a[1..], b, sep);
    }
  }

  /** The pieces, joined again, are the text, and none of them holds the separator. */
  lemma {:induction false} SplitBack(s: string, sep: char)
    ensures Join(Split(s, sep), [sep]) == s && forall i :: 0 <= i < |Split(s, sep)| ==> sep !in Split(s, sep)[i]
    decreases |s|
  {
    if s != [] {
      SplitBack(s[1..], sep);
      var rest, all := Split(s[1..], sep), Split(s, sep);
      if s[0] == sep { assert all[1..] == rest; } else { assert all[1..] == rest[1..]; }
    }
  }

  lemma {:induction false} ConcatAppend(a: seq<string>, b: seq<string>)
    ensures Concat(a + b) == Concat(a) + Concat(b)
    decreases |a|
  {
    if a == [] {
      assert a + b == b;
    } else {
      ConcatAppend(a[1..], b);
      assert (a + b)[1..] == a[1..] + b;
    }
  }

  lemma ConcatOne(part: string)
    ensures Concat([part]) == part
  {
    assert Concat([part]) == part + Concat([]);
  }

  /** Every occurrence of c doubled. */
  function Doubled(s: string, c: char): string {
    if s == [] then [] else (if s[0] == c then [c, c] else [s[0]]) + Doubled(s[1..], c)
  }

  // ----- trimming -----

  ghost predicate Trimmed(s: string) {
    s != [] ==> !IsSpace(s[0]) && !IsSpace(s[|s| - 1])
  }

  lemma {:induction false} TrimEndShape(s: string)
    ensures TrimEnd(s) <= s
    ensures TrimEnd(s) != [] ==> !IsSpace(TrimEnd(s)[|TrimEnd(s)| - 1])
    ensures |TrimEnd(s)| < |s| ==> IsSpace(s[|s| - 1])
    decreases |s|
  {
    if s != [] && IsSpace(s[|s| - 1]) { TrimEndShape(s[..|s| - 1]); }
  }

  lemma {:induction false} TrimStartShape(s: string)
    ensures TrimStart(s) != [] ==> !IsSpace(TrimStart(s)[0])
    ensures |TrimStart(s)| <= |s|
    ensures s != [] && !IsSpace(s[0]) ==> TrimStart(s) == s
    decreases |s|
  {
    if s != [] && IsSpace(s[0]) { TrimStartShape(s[1..]); }
  }

  lemma TrimIsTrimmed(s: string)
    ensures Trimmed(Trim(s))
    ensures |Trim(s)| <= |s|
  {
    TrimStartShape(s);
    TrimEndShape(TrimStart(s));
    var t, r := TrimStart(s), Trim(s);
    assert r != [] ==> r[0] == t[0];
  }

  lemma {:induction false} TrimStartKeeps(s: string, i: nat)
    requires i < |s| && !IsSpace(s[i])
    ensures TrimStart(s) != []
    decreases |s|
  {
    if IsSpace(s[0]) { TrimStartKeeps(s[1..], i - 1); }
  }

  lemma {:induction false} TrimEndKeeps(s: string)
    requires s != [] && !IsSpace(s[0])
    ensures TrimEnd(s) != []
    decreases |s|
  {
    if IsSpace(s[|s| - 1]) { TrimEndKeeps(s[..|s| - 1]); }
  }

  lemma NotBlank(s: string, i: nat)
    requires i < |s| && !IsSpace(s[i])
    ensures Trim(s) != []
  {
    TrimStartKeeps(s, i);
    TrimStartShape(s);
    TrimEndKeeps(TrimStart(s));
  }

  predicate AllSpaces(s: string) { forall i :: 0 <= i < |s| ==> IsSpace(s[i]) }

  lemma {:induction false} TrimStartIs(s: string) returns (lead: string)
    ensures AllSpaces(lead) && s == lead + TrimStart(s)
    decreases |s|
  {
    if s != [] && IsSpace(s[0]) {
      var more := TrimStartIs(s[1..]);
      lead := [s[0]] + more;
    } else {
      lead := [];
    }
  }

  lemma {:induction false} TrimEndIs(s: string) returns (trail: string)
    ensures AllSpaces(trail) && s == TrimEnd(s) + trail
    decreases |s|
  {
    if s != [] && IsSpace(s[|s| - 1]) {
      var more := TrimEndIs(s[..|s| - 1]);
      trail := more + [s[|s| - 1]];
    } else {
      trail := [];
    }
  }

  /** Trimming cuts off white space on both ends and leaves none there. */
  lemma TrimIs(s: string) returns (lead: string, trail: string)
    ensures AllSpaces(lead) && AllSpaces(trail) && s == lead + Trim(s) + trail && Trimmed(Trim(s))
  {
    lead := TrimStartIs(s);
    trail := TrimEndIs(TrimStart(s));
    TrimIsTrimmed(s);
  }

  /** Capitals are 32 below their small letters, and nothing else changes case. */
  lemma CasesAre(c: char)
    ensures Lower(c) as int == c as int + if 'A' <= c <= 'Z' then 32 else 0
    ensures Upper(c) as int == c as int - if 'a' <= c <= 'z' then 32 else 0
  {
  }

  lemma TrimmedIsFixed(s: string)
    requires Trimmed(s)
    ensures Trim(s) == s
  {
  }

  lemma TrimTwice(s: string)
    ensures Trim(Trim(s)) == Trim(s)
  {
    TrimIsTrimmed(s);
    TrimmedIsFixed(Trim(s));
  }
}
