/** The lines of a document (`render_markdown`, docs/build.py): how a text is cut into lines, and what each kind of line
    looks like, written out as the source's patterns are. */
module MarkdownLines {
  import opened Text
  import opened Counting
  import opened MarkdownDiv
  import opened Markdown

  function Times(c: char, n: nat): (r: string) { seq(n, i requires 0 <= i < n => c) }

  // ----- stripping -----

  predicate Stripped(s: string) { s != [] ==> !PySpace(s[0]) && !PySpace(s[|s| - 1]) }

  lemma {:induction false} LStripIs(s: string) returns (lead: string)
    ensures AllSpace(lead) && s == lead + LStrip(s) && (LStrip(s) != [] ==> !PySpace(LStrip(s)[0]))
    decreases |s|
  {
    if s != [] && PySpace(s[0]) {
      var more := LStripIs(s[1..]);
      lead := [s[0]] + more;
    } else {
      lead := [];
    }
  }

  lemma {:induction false} RStripIs(s: string) returns (trail: string)
    ensures AllSpace(trail) && s == RStrip(s) + trail && (RStrip(s) != [] ==> !PySpace(RStrip(s)[|RStrip(s)| - 1]))
    decreases |s|
  {
    if s != [] && PySpace(s[|s| - 1]) {
      var more := RStripIs(s[..|s| - 1]);
      trail := more + [s[|s| - 1]];
    } else {
      trail := [];
    }
  }

  /** Stripping cuts off white space on both ends and leaves none there. */
  lemma StripIs(s: string) returns (lead: string, trail: string)
    ensures AllSpace(lead) && AllSpace(trail) && s == lead + Strip(s) + trail && Stripped(Strip(s))
  {
    lead := LStripIs(s);
    trail := RStripIs(LStrip(s));
    var t, r := LStrip(s), Strip(s);
    assert r != [] ==> r[0] == t[0];
  }

  lemma {:induction false} DropQuotesIs(s: string) returns (n: nat)
    ensures s == Times('>', n) + DropQuotes(s) && (DropQuotes(s) != [] ==> DropQuotes(s)[0] != '>')
    decreases |s|
  {
    if s != [] && s[0] == '>' {
      var m := DropQuotesIs(s[1..]);
      n := m + 1;
      assert Times('>', n) == ['>'] + Times('>', m);
    } else {
      n := 0;
    }
  }

  /** The text of a quoted line: what is left of it without the white space around and the brackets in front, stripped
      again. */
  lemma UnquotedIs(line: string) returns (n: nat, rest: string)
    ensures Strip(line) == Times('>', n) + rest && (rest != [] ==> rest[0] != '>') && Unquoted(line) == Strip(rest)
  {
    n := DropQuotesIs(Strip(line));
    rest := DropQuotes(Strip(line));
  }

  // ----- patterns -----

  lemma {:induction false} RunIs(s: string, c: char)
    ensures s[..RunOf(s, c)] == Times(c, RunOf(s, c)) && (RunOf(s, c) < |s| ==> s[RunOf(s, c)] != c)
    decreases |s|
  {
    if s != [] && s[0] == c {
      RunIs(s[1..], c);
      var n := RunOf(s[1..], c);
      assert s[..n + 1] == [s[0]] + s[1..][..n];
      assert Times(c, n + 1) == [c] + Times(c, n);
    }
  }

  lemma {:induction false} RunFound(s: string, c: char, n: nat)
    requires n <= |s| && s[..n] == Times(c, n) && (n < |s| ==> s[n] != c)
    ensures RunOf(s, c) == n
    decreases n
  {
    if n > 0 {
      assert s[0] == s[..n][0] == Times(c, n)[0] == c;
      assert s[1..][..n - 1] == s[..n][1..] == Times(c, n)[1..] == Times(c, n - 1);
      RunFound(s[1..], c, n - 1);
    }
  }

  /** One to six hashes and white space. */
  ghost predicate LooksLikeHeading(s: string, n: nat, c: char, rest: string) {
    1 <= n <= 6 && PySpace(c) && s == Times('#', n) + [c] + rest
  }

  lemma HeadingIs(s: string)
    ensures IsHeading(s) <==> exists n: nat, c, rest :: LooksLikeHeading(s, n, c, rest)
  {
    var n := RunOf(s, '#');
    if IsHeading(s) {
      RunIs(s, '#');
      assert s == s[..n] + [s[n]] + s[n + 1..];
      assert LooksLikeHeading(s, n, s[n], s[n + 1..]);
    }
    if m: nat, c, rest :| LooksLikeHeading(s, m, c, rest) {
      assert s[..m] == Times('#', m) && s[m] == c;
      RunFound(s, '#', m);
    }
  }

  lemma RuleIs(s: string)
    ensures IsRule(s) <==> exists n: nat :: n >= 3 && s == Times('-', n)
  {
    if IsRule(s) { assert s == Times('-', |s|); }
  }

  ghost predicate LooksLikeBullet(s: string, mark: char, c: char, rest: string) {
    (mark == '-' || mark == '*') && PySpace(c) && s == [mark, c] + rest
  }

  lemma BulletIs(s: string)
    ensures IsBullet(s) <==> exists mark, c, rest :: LooksLikeBullet(s, mark, c, rest)
  {
    if IsBullet(s) {
      assert s == [s[0], s[1]] + s[2..];
      assert LooksLikeBullet(s, s[0], s[1], s[2..]);
    }
  }

  /** Digits, a full stop and white space. */
  ghost predicate LooksOrdered(s: string, digits: string, c: char, rest: string) {
    && digits != [] && (forall i :: 0 <= i < |digits| ==> '0' <= digits[i] <= '9')
    && PySpace(c) && s == digits + "." + [c] + rest
  }

  lemma {:induction false} DigitsAre(s: string)
    ensures forall i :: 0 <= i < DigitRun(s) ==> IsDigit(s[i])
    ensures DigitRun(s) < |s| ==> !IsDigit(s[DigitRun(s)])
    decreases |s|
  {
    if s != [] && IsDigit(s[0]) { DigitsAre(s[1..]); }
  }

  lemma {:induction false} DigitsFound(s: string, n: nat)
    requires n < |s| && !IsDigit(s[n]) && forall i :: 0 <= i < n ==> IsDigit(s[i])
    ensures DigitRun(s) == n
    decreases n
  {
    if n > 0 { DigitsFound(s[1..], n - 1); }
  }

  lemma OrderedIs(s: string)
    ensures IsOrdered(s) <==> exists digits, c, rest :: LooksOrdered(s, digits, c, rest)
  {
    var n := DigitRun(s);
    if IsOrdered(s) {
      DigitsAre(s);
      assert s == s[..n] + "." + [s[n + 1]] + s[n + 2..];
      assert LooksOrdered(s, s[..n], s[n + 1], s[n + 2..]);
    }
    if digits, c, rest :| LooksOrdered(s, digits, c, rest) {
      var m := |digits|;
      assert s[m] == '.' && s[m + 1] == c && forall i :: 0 <= i < m ==> s[i] == digits[i];
      DigitsFound(s, m);
    }
  }

  predicate InTag(c: char) { 'a' <= c <= 'z' || 'A' <= c <= 'Z' || '0' <= c <= '9' || c == '_' || c == '-' }

  /** An opening bracket, a tag name and a character that ends it. */
  ghost predicate LooksLikeHtml(line: string, name: string, c: char, rest: string) {
    && name != [] && ('a' <= name[0] <= 'z' || 'A' <= name[0] <= 'Z')
    && (forall i :: 0 <= i < |name| ==> InTag(name[i]))
    && (PySpace(c) || c == '>' || c == '/') && line == "<" + name + [c] + rest
  }

  lemma {:induction false} TagIs(s: string)
    ensures forall i :: 0 <= i < TagRun(s) ==> InTag(s[i])
    ensures TagRun(s) < |s| ==> !InTag(s[TagRun(s)])
    decreases |s|
  {
    if s != [] && IsTagPart(s[0]) { TagIs(s[1..]); }
  }

  lemma {:induction false} TagFound(s: string, n: nat)
    requires n < |s| && !InTag(s[n]) && forall i :: 0 <= i < n ==> InTag(s[i])
    ensures TagRun(s) == n
    decreases n
  {
    if n > 0 { TagFound(s[1..], n - 1); }
  }

  lemma EndsTag(c: char)
    requires PySpace(c) || c == '>' || c == '/'
    ensures !InTag(c)
  {
  }

  lemma HtmlFound(line: string, name: string, c: char, rest: string)
    requires LooksLikeHtml(line, name, c, rest)
    ensures IsHtml(line) && TagOf(line) == ToLower(name)
  {
    var s, n := line[1..], |name|;
    assert s == name + [c] + rest;
    EndsTag(c);
    assert s[n] == c && forall i :: 0 <= i < n ==> s[i] == name[i];
    TagFound(s, n);
    assert s[0] == line[1] && line[1 + n] == c;
    assert line[1..1 + n] == name;
  }

  lemma HtmlIs(line: string)
    ensures IsHtml(line) <==> exists name, c, rest :: LooksLikeHtml(line, name, c, rest)
    ensures forall name, c, rest :: LooksLikeHtml(line, name, c, rest) ==> IsHtml(line) && TagOf(line) == ToLower(name)
  {
    if IsHtml(line) {
      var s := line[1..];
      var n := TagRun(s);
      TagIs(s);
      assert n > 0 && forall i :: 0 <= i < n ==> s[..n][i] == s[i];
      assert line == "<" + s[..n] + [line[1 + n]] + line[2 + n..];
      assert LooksLikeHtml(line, s[..n], line[1 + n], line[2 + n..]);
    }
    forall name, c, rest | LooksLikeHtml(line, name, c, rest) ensures IsHtml(line) && TagOf(line) == ToLower(name) {
      HtmlFound(line, name, c, rest);
    }
  }

  /** The line under a table's head: perhaps a bar, white space, perhaps a colon, three dashes and later a bar. */
  ghost predicate LooksLikeSeparator(s: string, bar: string, space: string, colon: string, rest: string) {
    && (bar == "" || bar == "|") && AllSpace(space) && (colon == "" || colon == ":")
    && s == bar + space + colon + "---" + rest && '|' in rest
  }

  ghost predicate UnderHead(s: string) {
    exists bar, space, colon, rest :: LooksLikeSeparator(s, bar, space, colon, rest)
  }

  lemma LStripFound(space: string, rest: string)
    requires AllSpace(space) && (rest != [] ==> !PySpace(rest[0]))
    ensures LStrip(space + rest) == rest
    decreases |space|
  {
    if space == [] {
      assert space + rest == rest;
    } else {
      assert (space + rest)[1..] == space[1..] + rest;
      LStripFound(space[1..], rest);
    }
  }

  lemma DashesIs(c: string)
    ensures RunOf(c, '-') >= 3 && '|' in c <==> |c| >= 3 && c[..3] == "---" && '|' in c[3..]
  {
    RunIs(c, '-');
    var n := RunOf(c, '-');
    if n >= 3 {
      assert c[..3] == c[..n][..3];
      assert c == c[..3] + c[3..];
    }
    if |c| >= 3 && c[..3] == "---" {
      assert c == c[..3] + c[3..];
      AtLeastRun(c, 3);
    }
  }

  lemma {:induction false} AtLeastRun(s: string, n: nat)
    requires n <= |s| && s[..n] == Times('-', n)
    ensures RunOf(s, '-') >= n
    decreases n
  {
    if n > 0 {
      assert s[0] == s[..n][0] == '-';
      assert s[1..][..n - 1] == s[..n][1..] == Times('-', n)[1..] == Times('-', n - 1);
      AtLeastRun(s[1..], n - 1);
    }
  }

  lemma SeparatorIs(s: string)
    ensures IsSeparator(s) <==> UnderHead(s)
  {
    if IsSeparator(s) { var bar, space, colon, rest := SeparatorParts(s); }
    if bar, space, colon, rest :| LooksLikeSeparator(s, bar, space, colon, rest) {
      SeparatorFound(s, bar, space, colon, rest);
    }
  }

  lemma SeparatorParts(s: string) returns (bar: string, space: string, colon: string, rest: string)
    requires IsSeparator(s)
    ensures LooksLikeSeparator(s, bar, space, colon, rest)
  {
    var a := if s != [] && s[0] == '|' then s[1..] else s;
    var b := LStrip(a);
    var c := if b != [] && b[0] == ':' then b[1..] else b;
    bar := if s != [] && s[0] == '|' then "|" else "";
    space := LStripIs(a);
    colon := if b != [] && b[0] == ':' then ":" else "";
    DashesIs(c);
    rest := c[3..];
    Assemble(s, a, b, c, bar, space, colon, c[..3], rest);
  }

  lemma Assemble(s: string, a: string, b: string, c: string,
                 bar: string, space: string, colon: string, dashes: string, rest: string)
    requires s == bar + a && a == space + b && b == colon + c && c == dashes + rest
    ensures s == bar + space + colon + dashes + rest
  {
  }

  lemma SeparatorFound(s: string, bar: string, space: string, colon: string, rest: string)
    requires LooksLikeSeparator(s, bar, space, colon, rest)
    ensures IsSeparator(s)
  {
    var c := "---" + rest;
    var b := colon + c;
    var a := space + b;
    Assemble(bar + a, a, b, c, bar, space, colon, "---", rest);
    assert bar == "" ==> s == a;
    assert bar == "|" ==> s[1..] == a;
    LStripFound(space, b);
    assert colon == ":" ==> b[1..] == c;
    assert colon == "" ==> b == c;
    assert c[..3] == "---" && c[3..] == rest;
    DashesIs(c);
    assert a != [] && (bar == "" ==> a[0] != '|');
  }

  // ----- kinds -----

  lemma FenceIs(s: string)
    ensures IsFence(s) <==> "```" <= s
  {
  }

  lemma {:induction false} RStripKeepsFirst(s: string)
    requires s != [] && !PySpace(s[0])
    ensures RStrip(s) != [] && RStrip(s)[0] == s[0]
    decreases |s|
  {
    if PySpace(s[|s| - 1]) { RStripKeepsFirst(s[..|s| - 1]); }
  }

  /** A line that begins with a bracket still does when stripped. */
  lemma HtmlStripped(line: string)
    requires IsHtml(line)
    ensures Strip(line) != [] && Strip(line)[0] == '<'
  {
    RStripKeepsFirst(line);
  }

  /** Every kind of line is known by its own pattern: no line fits two of them, so the order of the tests is of no
      consequence. */
  lemma KindIs(lines: seq<string>, i: nat)
    requires i < |lines|
    ensures var kind, s := KindAt(lines, i), Strip(lines[i]);
            && (kind == Blank <==> s == "")
            && (kind == Fence <==> "```" <= s)
            && (kind == Html <==> exists name, c, rest :: LooksLikeHtml(lines[i], name, c, rest))
            && (kind == Rule <==> exists n: nat :: n >= 3 && s == Times('-', n))
            && (kind == Heading <==> exists n: nat, c, rest :: LooksLikeHeading(s, n, c, rest))
            && (kind == Quote <==> ">" <= s)
            && (kind == Bullets <==> exists mark, c, rest :: LooksLikeBullet(s, mark, c, rest))
            && (kind == Numbered <==> exists digits, c, rest :: LooksOrdered(s, digits, c, rest))
            && (kind == Table <==>
                  && s != [] && s[0] == '|' && s[|s| - 1] == '|' && i + 1 < |lines|
                  && UnderHead(Strip(lines[i + 1])))
  {
    var s := Strip(lines[i]);
    FenceIs(s);
    HtmlIs(lines[i]);
    RuleIs(s);
    HeadingIs(s);
    BulletIs(s);
    OrderedIs(s);
    if i + 1 < |lines| { SeparatorIs(Strip(lines[i + 1])); }
    if IsHtml(lines[i]) { HtmlStripped(lines[i]); }
    FirstCharacters(s);
  }

  lemma FirstCharacters(s: string)
    ensures IsHeading(s) ==> s[0] == '#'
    ensures IsOrdered(s) ==> IsDigit(s[0])
    ensures IsRule(s) ==> !IsBullet(s)
  {
  }

  /** Headings, quotations, fences, rules and table rows end a list. */
  lemma BlockBreakIs(s: string)
    ensures IsBlockBreak(s) <==>
              || (exists n: nat, c, rest :: LooksLikeHeading(s, n, c, rest))
              || ">" <= s || "```" <= s || "|" <= s
              || exists n: nat :: n >= 3 && s == Times('-', n)
  {
    HeadingIs(s);
    FenceIs(s);
    RuleIs(s);
  }

  /** A line belongs to a list if it is not blank, does not begin an item of the other kind and ends no list. */
  lemma InListIs(s: string)
    ensures InList(s, false) <==> s != "" && !IsOrdered(s) && !IsBlockBreak(s)
    ensures InList(s, true) <==> s != "" && !IsBullet(s) && !IsBlockBreak(s)
  {
    FirstCharacters(s);
  }

  /** The depth of tags changes by the most opening tags a line holds without overlap, less the most closing ones. */
  lemma TagDeltaIs(line: string, tag: string) returns (starts: set<nat>, ends: set<nat>)
    requires tag != []
    ensures Packing(line, "<" + tag, starts) && Packing(line, "</" + tag + ">", ends)
    ensures forall s :: Packing(line, "<" + tag, s) ==> |s| <= |starts|
    ensures forall s :: Packing(line, "</" + tag + ">", s) ==> |s| <= |ends|
    ensures TagDelta(line, tag) == |starts| - |ends|
  {
    starts := MostOccurrences(line, "<" + tag);
    ends := MostOccurrences(line, "</" + tag + ">");
  }

  lemma MostOccurrences(text: string, needle: string) returns (most: set<nat>)
    requires needle != []
    ensures Packing(text, needle, most) && |most| == Greedy(text, needle, 0)
    ensures forall s :: Packing(text, needle, s) ==> |s| <= |most|
  {
    GreedyIsOptimal(text, needle);
    most :| Packing(text, needle, most) && |most| == Greedy(text, needle, 0);
  }

  // ----- lines of a text -----

  /** A carriage return and line feed, or one line break that is not a carriage return before a line feed. */
  predicate IsLineBreak(b: string, after: string) {
    b == "\r\n" || (|b| == 1 && IsBreak(b[0]) && !(b == "\r" && after != [] && after[0] == '\n'))
  }

  predicate IsBreakless(line: string) { forall i :: 0 <= i < |line| ==> !IsBreak(line[i]) }

  /** A text is its lines with line breaks between them, perhaps with one after the last, which is then not followed by
      an empty line. */
  ghost predicate CutInto(s: string, lines: seq<string>)
    decreases |lines|
  {
    if lines == [] then s == ""
    else
      && IsBreakless(lines[0])
      && ((|lines| == 1 && s == lines[0] && s != "")
          || exists b, after :: IsLineBreak(b, after) && s == lines[0] + b + after && CutInto(after, lines[1..]))
  }

  lemma {:induction false} LineLengthIs(s: string)
    ensures IsBreakless(s[..LineLength(s)])
    decreases |s|
  {
    if s != [] && !IsBreak(s[0]) {
      LineLengthIs(s[1..]);
      var n := LineLength(s[1..]);
      assert s[..n + 1] == [s[0]] + s[1..][..n];
    }
  }

  lemma BreakIs(s: string)
    requires s != [] && IsBreak(s[0])
    ensures IsLineBreak(s[..BreakLength(s)], s[BreakLength(s)..])
  {
    if |s| > 1 && s[0] == '\r' && s[1] == '\n' { assert s[..2] == "\r\n"; } else { assert s[..1] == [s[0]]; }
  }

  lemma CutTwice(s: string, n: nat, m: nat)
    requires n + m <= |s|
    ensures s[n..][m..] == s[n + m..] && s == s[..n] + s[n..][..m] + s[n..][m..]
  {
  }

  lemma {:induction false} SplitLinesIs(s: string)
    ensures CutInto(s, SplitLines(s))
    decreases |s|
  {
    if s != [] {
      var n := LineLength(s);
      LineLengthIs(s);
      if n == |s| {
        assert s[..n] == s;
      } else {
        var tail := s[n..];
        BreakIs(tail);
        var m := BreakLength(tail);
        var b, after := tail[..m], tail[m..];
        CutTwice(s, n, m);
        SplitLinesIs(after);
        var lines := SplitLines(s);
        assert lines[0] == s[..n] && lines[1..] == SplitLines(after);
        assert IsLineBreak(b, after) && s == lines[0] + b + after && CutInto(after, lines[1..]);
      }
    }
  }
}
