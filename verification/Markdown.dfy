/** The block structure of the documentation renderer (`render_markdown` and `collect_list_items`, docs/build.py):
    it terminates on every source, and every line goes into exactly one block.

    Rendering inside a block is left out. Digits and the characters of a tag name are ASCII. */
module Markdown {
  import opened Wrappers
  import opened Text
  import opened Counting
  import opened MarkdownDiv

  // ----- lines -----

  predicate IsBreak(c: char) {
    '\n' <= c <= '\r' || '\U{001C}' <= c <= '\U{001E}' || c == '\U{0085}' || c == '\U{2028}' || c == '\U{2029}'
  }

  /** Characters before the first line break. */
  function LineLength(s: string): (n: nat)
    ensures n <= |s| && (n < |s| ==> IsBreak(s[n]))
  {
    if s == [] || IsBreak(s[0]) then 0 else 1 + LineLength(s[1..])
  }

  /** Length of the line break at the start; a carriage return takes a line feed with it. */
  function BreakLength(s: string): (n: nat)
    requires s != []
    ensures 1 <= n <= |s|
  {
    if |s| > 1 && s[0] == '\r' && s[1] == '\n' then 2 else 1
  }

  function SplitLines(s: string): seq<string>
    decreases |s|
  {
    if s == [] then []
    else
      var n := LineLength(s);
      if n == |s| then [s] else [s[..n]] + SplitLines(s[n + BreakLength(s[n..])..])
  }

  function LStrip(s: string): string { if s != [] && PySpace(s[0]) then LStrip(s[1..]) else s }

  function RStrip(s: string): string { if s != [] && PySpace(s[|s| - 1]) then RStrip(s[..|s| - 1]) else s }

  function Strip(s: string): string { RStrip(LStrip(s)) }

  function DropQuotes(s: string): string { if s != [] && s[0] == '>' then DropQuotes(s[1..]) else s }

  /** Length of the lines joined by line feeds. */
  function Joined(lines: seq<string>): nat {
    if lines == [] then 0 else if |lines| == 1 then |lines[0]| else |lines[0]| + 1 + Joined(lines[1..])
  }

  lemma {:induction false} SplitIsNoLonger(s: string)
    ensures Joined(SplitLines(s)) <= |s|
    decreases |s|
  {
    if s != [] {
      var n := LineLength(s);
      if n < |s| { SplitIsNoLonger(s[n + BreakLength(s[n..])..]); }
    }
  }

  lemma {:induction false} JoinedIs(lines: seq<string>)
    ensures |Join(lines, "\n")| == Joined(lines)
    decreases |lines|
  {
    if |lines| > 1 { JoinedIs(lines[1..]); }
  }

  lemma {:induction false} JoinedPart(lines: seq<string>, from: nat, to: nat)
    requires from <= to <= |lines|
    ensures Joined(lines[from..to]) <= Joined(lines)
    decreases |lines|
  {
    if lines != [] {
      if from > 0 {
        JoinedPart(lines[1..], from - 1, to - 1);
        assert lines[from..to] == lines[1..][from - 1..to - 1];
      } else if to > 1 {
        JoinedPart(lines[1..], 0, to - 1);
        assert lines[0..to][1..] == lines[1..][0..to - 1];
      }
    }
  }

  lemma {:induction false} JoinedShrinks(a: seq<string>, b: seq<string>)
    requires |a| == |b| && a != [] && forall i :: 0 <= i < |a| ==> |a[i]| < |b[i]|
    ensures Joined(a) < Joined(b)
    decreases |a|
  {
    if |a| > 1 { JoinedShrinks(a[1..], b[1..]); }
  }

  lemma {:induction false} StripShorter(s: string)
    ensures |LStrip(s)| <= |s| && |RStrip(s)| <= |s|
    decreases |s|
  {
    if s != [] {
      StripShorter(s[1..]);
      StripShorter(s[..|s| - 1]);
    }
  }

  lemma {:induction false} DropShorter(s: string)
    ensures |DropQuotes(s)| <= |s| && (s != [] && s[0] == '>' ==> |DropQuotes(s)| < |s|)
    decreases |s|
  {
    if s != [] { DropShorter(s[1..]); }
  }

  /** The text of a quoted line. */
  function Unquoted(line: string): string { Strip(DropQuotes(Strip(line))) }

  lemma UnquotedShorter(line: string)
    requires IsQuote(Strip(line))
    ensures |Unquoted(line)| < |line|
  {
    StripShorter(line);
    StripShorter(LStrip(line));
    DropShorter(Strip(line));
    StripShorter(DropQuotes(Strip(line)));
    StripShorter(LStrip(DropQuotes(Strip(line))));
  }

  // ----- kinds of lines -----

  predicate IsFence(s: string) { |s| >= 3 && s[0] == '`' && s[1] == '`' && s[2] == '`' }

  predicate IsQuote(s: string) { s != [] && s[0] == '>' }

  predicate IsPipe(s: string) { s != [] && s[0] == '|' }

  predicate IsRule(s: string) { |s| >= 3 && forall i :: 0 <= i < |s| ==> s[i] == '-' }

  function RunOf(s: string, c: char): (n: nat)
    ensures n <= |s|
  {
    if s == [] || s[0] != c then 0 else 1 + RunOf(s[1..], c)
  }

  predicate IsHeading(s: string) { var n := RunOf(s, '#'); 1 <= n <= 6 && n < |s| && PySpace(s[n]) }

  predicate IsBullet(s: string) { |s| > 1 && (s[0] == '-' || s[0] == '*') && PySpace(s[1]) }

  function DigitRun(s: string): (n: nat)
    ensures n <= |s|
  {
    if s == [] || !IsDigit(s[0]) then 0 else 1 + DigitRun(s[1..])
  }

  predicate IsOrdered(s: string) { var n := DigitRun(s); n > 0 && n + 1 < |s| && s[n] == '.' && PySpace(s[n + 1]) }

  predicate IsTagPart(c: char) { IsAlnum(c) || c == '_' || c == '-' }

  function TagRun(s: string): (n: nat)
    ensures n <= |s|
  {
    if s == [] || !IsTagPart(s[0]) then 0 else 1 + TagRun(s[1..])
  }

  predicate IsHtml(line: string) {
    && |line| > 2 && line[0] == '<' && (IsUpper(line[1]) || IsLower(line[1]))
    && var n := 1 + TagRun(line[1..]); n < |line| && (PySpace(line[n]) || line[n] == '>' || line[n] == '/')
  }

  function TagOf(line: string): (tag: string)
    requires IsHtml(line)
    ensures tag != []
  {
    ToLower(line[1..1 + TagRun(line[1..])])
  }

  /** Opening minus closing tags of a line. */
  function TagDelta(line: string, tag: string): int
    requires tag != []
  {
    Greedy(line, "<" + tag, 0) - Greedy(line, "</" + tag + ">", 0)
  }

  predicate IsSeparator(s: string) {
    var a := if s != [] && s[0] == '|' then s[1..] else s;
    var b := LStrip(a);
    var c := if b != [] && b[0] == ':' then b[1..] else b;
    RunOf(c, '-') >= 3 && '|' in c
  }

  predicate IsTableRow(s: string) { s != [] && s[0] == '|' && s[|s| - 1] == '|' }

  predicate IsBlockBreak(s: string) { IsHeading(s) || IsQuote(s) || IsFence(s) || IsRule(s) || IsPipe(s) }

  datatype Kind = Blank | Fence | Html | Rule | Heading | Quote | Bullets | Numbered | Table | Paragraph

  /** The branch taken at a line, in the order of the source. */
  function KindAt(lines: seq<string>, i: nat): Kind
    requires i < |lines|
  {
    var s := Strip(lines[i]);
    if s == [] then Blank
    else if IsFence(s) then Fence
    else if IsHtml(lines[i]) then Html
    else if IsRule(s) then Rule
    else if IsHeading(s) then Heading
    else if IsQuote(s) then Quote
    else if IsBullet(s) then Bullets
    else if IsOrdered(s) then Numbered
    else if IsTableRow(s) && i + 1 < |lines| && IsSeparator(Strip(lines[i + 1])) then Table
    else Paragraph
  }

  predicate IsText(lines: seq<string>, i: nat) { i < |lines| && KindAt(lines, i) == Paragraph }

  // ----- blocks -----

  datatype Span = Span(kind: Kind, from: nat, to: nat, inner: seq<Span>)

  /** Spans that follow each other without gap or overlap from the first line on. */
  predicate Covers(spans: seq<Span>, to: nat) {
    if spans == [] then to == 0
    else
      var last := spans[|spans| - 1];
      last.from < last.to == to && Covers(spans[..|spans| - 1], last.from)
  }

  function TagDepth(lines: seq<string>, tag: string, from: nat, to: nat): int
    requires tag != [] && from <= to <= |lines|
  {
    if from == to then 0 else TagDepth(lines, tag, from, to - 1) + TagDelta(lines[to - 1], tag)
  }

  predicate Continues(s: string, ordered: bool) {
    s != [] && !(if ordered then IsBullet(s) else IsOrdered(s)) && !IsBlockBreak(s)
  }

  predicate InList(s: string, ordered: bool) {
    s != [] && ((if ordered then IsOrdered(s) else IsBullet(s)) || Continues(s, ordered))
  }

  /** The lines a block takes, and why it stops where it does. */
  predicate Extent(lines: seq<string>, kind: Kind, from: nat, to: nat)
    requires from < to <= |lines|
  {
    match kind
    case Blank => to == from + 1
    case Rule => to == from + 1
    case Heading => to == from + 1
    case Paragraph =>
      && (forall i :: from <= i < to ==> KindAt(lines, i) == Paragraph)
      && (to == |lines| || KindAt(lines, to) != Paragraph)
    case Fence =>
      && (forall i :: from < i < to - 1 ==> !IsFence(Strip(lines[i])))
      && (to == |lines| || (to - 1 > from && IsFence(Strip(lines[to - 1]))))
    case Html =>
      && IsHtml(lines[from])
      && (forall i :: from < i < to ==> TagDepth(lines, TagOf(lines[from]), from, i) > 0)
      && (to == |lines| || TagDepth(lines, TagOf(lines[from]), from, to) <= 0)
    case Quote =>
      && (forall i :: from <= i < to ==> IsQuote(Strip(lines[i])))
      && (to == |lines| || !IsQuote(Strip(lines[to])))
    case Bullets =>
      && (forall i :: from <= i < to ==> InList(Strip(lines[i]), false))
      && (to == |lines| || !InList(Strip(lines[to]), false))
    case Numbered =>
      && (forall i :: from <= i < to ==> InList(Strip(lines[i]), true))
      && (to == |lines| || !InList(Strip(lines[to]), true))
    case Table =>
      && from + 2 <= to
      && (forall i :: from + 2 <= i < to ==> IsTableRow(Strip(lines[i])))
      && (to == |lines| || !IsTableRow(Strip(lines[to])))
  }

  predicate SpanOk(lines: seq<string>, s: Span) {
    s.from < s.to <= |lines| && KindAt(lines, s.from) == s.kind && Extent(lines, s.kind, s.from, s.to)
  }

  function UnquotedLines(lines: seq<string>, from: nat, to: nat): (r: seq<string>)
    requires from <= to <= |lines|
  {
    seq(to - from, k requires 0 <= k < to - from => Unquoted(lines[from + k]))
  }

  /** What is rendered inside a block: the text of a quotation, or the body of a div. */
  function InnerSource(lines: seq<string>, s: Span): Option<string>
    requires SpanOk(lines, s)
  {
    if s.kind == Quote then Some(Join(UnquotedLines(lines, s.from, s.to), "\n"))
    else if s.kind == Html && TagOf(lines[s.from]) == "div" then DivBody(Join(lines[s.from..s.to], "\n"))
    else None
  }

  /** A quoted text is shorter than the source its lines come from, and so is the body of a div. */
  lemma InnerIsShorter(source: string, s: Span)
    requires SpanOk(SplitLines(source), s)
    ensures var inner := InnerSource(SplitLines(source), s); inner.Some? ==> |inner.value| < |source|
  {
    var lines := SplitLines(source);
    SplitIsNoLonger(source);
    JoinedPart(lines, s.from, s.to);
    JoinedIs(lines[s.from..s.to]);
    if s.kind == Quote {
      QuotedShrinks(lines, s.from, s.to);
    } else if InnerSource(lines, s).Some? {
      DivBodyIsShorter(Join(lines[s.from..s.to], "\n"));
    }
  }

  lemma QuotedShrinks(lines: seq<string>, from: nat, to: nat)
    requires from < to <= |lines| && forall i :: from <= i < to ==> IsQuote(Strip(lines[i]))
    ensures |Join(UnquotedLines(lines, from, to), "\n")| < Joined(lines[from..to])
  {
    var quoted, part := UnquotedLines(lines, from, to), lines[from..to];
    forall k | 0 <= k < |quoted| ensures |quoted[k]| < |part[k]| { UnquotedShorter(lines[from + k]); }
    JoinedShrinks(quoted, part);
    JoinedIs(quoted);
  }

  /** A block of a source, with what is inside it rendered likewise. */
  ghost predicate Block(source: string, s: Span)
    decreases |source|, 0
  {
    && SpanOk(SplitLines(source), s)
    && var inner := InnerSource(SplitLines(source), s);
       InnerIsShorter(source, s);
       if inner.Some? then Rendered(inner.value, s.inner) else s.inner == []
  }

  /** Blocks that cover all lines of a source in order, each line once. */
  ghost predicate Rendered(source: string, spans: seq<Span>)
    decreases |source|, 1
  {
    Covers(spans, |SplitLines(source)|) && forall k :: 0 <= k < |spans| ==> Block(source, spans[k])
  }

  ghost predicate AllBlocks(source: string, spans: seq<Span>)
  {
    forall k :: 0 <= k < |spans| ==> Block(source, spans[k])
  }

  /** The paragraph being collected, from its first line up to line i. */
  ghost predicate Collecting(lines: seq<string>, spans: seq<Span>, para: nat, i: nat) {
    para <= i <= |lines| && Covers(spans, para) && forall k :: para <= k < i ==> IsText(lines, k)
  }

  /** The paragraph being collected becomes a block, if there is one. */
  function Flushed(spans: seq<Span>, para: nat, i: nat): seq<Span>
    requires para <= i
  {
    if para == i then spans else spans + [Span(Paragraph, para, i, [])]
  }

  lemma CoversSnoc(spans: seq<Span>, s: Span)
    requires Covers(spans, s.from) && s.from < s.to
    ensures Covers(spans + [s], s.to)
  {
    assert (spans + [s])[..|spans|] == spans;
  }

  lemma BlocksSnoc(source: string, spans: seq<Span>, s: Span)
    requires AllBlocks(source, spans) && Block(source, s)
    ensures AllBlocks(source, spans + [s])
  {
    var all := spans + [s];
    forall k | 0 <= k < |all| ensures Block(source, all[k]) { if k < |spans| { assert all[k] == spans[k]; } }
  }

  lemma ParagraphIsBlock(source: string, para: nat, i: nat)
    requires para < i <= |SplitLines(source)| && forall k :: para <= k < i ==> IsText(SplitLines(source), k)
    requires !IsText(SplitLines(source), i)
    ensures Block(source, Span(Paragraph, para, i, []))
  {
    var lines := SplitLines(source);
    forall k | para <= k < i ensures KindAt(lines, k) == Paragraph { assert IsText(lines, k); }
    assert IsText(lines, para);
  }

  /** A paragraph ends. */
  lemma FlushKeeps(source: string, spans: seq<Span>, para: nat, i: nat)
    requires Collecting(SplitLines(source), spans, para, i) && AllBlocks(source, spans)
    requires !IsText(SplitLines(source), i)
    ensures Covers(Flushed(spans, para, i), i) && AllBlocks(source, Flushed(spans, para, i))
  {
    if para < i {
      ParagraphIsBlock(source, para, i);
      CoversSnoc(spans, Span(Paragraph, para, i, []));
      BlocksSnoc(source, spans, Span(Paragraph, para, i, []));
    }
  }

  lemma TextKeeps(lines: seq<string>, spans: seq<Span>, para: nat, i: nat)
    requires Collecting(lines, spans, para, i) && IsText(lines, i)
    ensures Collecting(lines, spans, para, i + 1)
  {
  }

  /** A block follows. */
  lemma BlockKeeps(source: string, spans: seq<Span>, para: nat, i: nat, s: Span)
    requires Collecting(SplitLines(source), spans, para, i) && AllBlocks(source, spans)
    requires Block(source, s) && s.from == i < s.to <= |SplitLines(source)| && !IsText(SplitLines(source), i)
    ensures Collecting(SplitLines(source), Flushed(spans, para, i) + [s], s.to, s.to)
    ensures AllBlocks(source, Flushed(spans, para, i) + [s])
  {
    FlushKeeps(source, spans, para, i);
    CoversSnoc(Flushed(spans, para, i), s);
    BlocksSnoc(source, Flushed(spans, para, i), s);
  }

  method FenceEnd(lines: seq<string>, from: nat) returns (to: nat)
    requires from < |lines|
    ensures from < to <= |lines| && Extent(lines, Fence, from, to)
  {
    var i := from + 1;
    while i < |lines| && !IsFence(Strip(lines[i]))
      invariant from < i <= |lines| && forall k :: from < k < i ==> !IsFence(Strip(lines[k]))
    {
      i := i + 1;
    }
    // The closing fence is skipped, and so is the end of the text when there is none.
    return if i < |lines| then i + 1 else i;
  }

  method TagEnd(lines: seq<string>, tag: string, from: nat) returns (to: nat)
    requires from < |lines| && tag != []
    ensures from < to <= |lines|
    ensures forall i :: from < i < to ==> TagDepth(lines, tag, from, i) > 0
    ensures to == |lines| || TagDepth(lines, tag, from, to) <= 0
  {
    var depth := TagDelta(lines[from], tag);
    to := from + 1;
    assert TagDepth(lines, tag, from, from) == 0;
    while to < |lines| && depth > 0
      invariant from < to <= |lines| && depth == TagDepth(lines, tag, from, to)
      invariant forall i :: from < i < to ==> TagDepth(lines, tag, from, i) > 0
    {
      assert TagDepth(lines, tag, from, to + 1) == TagDepth(lines, tag, from, to) + TagDelta(lines[to], tag);
      depth := depth + TagDelta(lines[to], tag);
      to := to + 1;
    }
  }

  method HtmlEnd(lines: seq<string>, from: nat) returns (to: nat)
    requires from < |lines| && IsHtml(lines[from])
    ensures from < to <= |lines| && Extent(lines, Html, from, to)
  {
    to := TagEnd(lines, TagOf(lines[from]), from);
  }

  method QuoteEnd(lines: seq<string>, from: nat) returns (to: nat, quoted: seq<string>)
    requires from < |lines| && IsQuote(Strip(lines[from]))
    ensures from < to <= |lines| && Extent(lines, Quote, from, to) && quoted == UnquotedLines(lines, from, to)
  {
    to, quoted := from, [];
    while to < |lines| && IsQuote(Strip(lines[to]))
      invariant from <= to <= |lines| && quoted == UnquotedLines(lines, from, to)
      invariant forall k :: from <= k < to ==> IsQuote(Strip(lines[k]))
    {
      quoted := quoted + [Unquoted(lines[to])];
      to := to + 1;
    }
  }

  /** The lines that begin an item. */
  function Items(lines: seq<string>, from: nat, to: nat, ordered: bool): set<nat>
    requires to <= |lines|
  {
    set k | from <= k < to && if ordered then IsOrdered(Strip(lines[k])) else IsBullet(Strip(lines[k]))
  }

  lemma ItemsStep(lines: seq<string>, from: nat, i: nat, ordered: bool)
    requires from <= i < |lines|
    ensures var item := if ordered then IsOrdered(Strip(lines[i])) else IsBullet(Strip(lines[i]));
            |Items(lines, from, i + 1, ordered)| == |Items(lines, from, i, ordered)| + if item then 1 else 0
  {
    var item := if ordered then IsOrdered(Strip(lines[i])) else IsBullet(Strip(lines[i]));
    var here: set<nat> := if item then {i} else {};
    assert Items(lines, from, i + 1, ordered) == Items(lines, from, i, ordered) + here;
  }

  /** Items and the lines that continue them; at least one line is taken where an item starts. */
  method CollectListItems(lines: seq<string>, start: nat, ordered: bool) returns (i: nat, items: nat)
    requires start < |lines| && (if ordered then IsOrdered(Strip(lines[start])) else IsBullet(Strip(lines[start])))
    ensures start < i <= |lines| && 0 < items <= i - start && items == |Items(lines, start, i, ordered)|
    ensures forall k :: start <= k < i ==> InList(Strip(lines[k]), ordered)
    ensures i == |lines| || !InList(Strip(lines[i]), ordered)
  {
    i, items := start, 0;
    while i < |lines|
      invariant start <= i <= |lines| && items <= i - start && (i > start ==> items > 0)
      invariant items == |Items(lines, start, i, ordered)|
      invariant forall k :: start <= k < i ==> InList(Strip(lines[k]), ordered)
    {
      var stripped := Strip(lines[i]);
      ItemsStep(lines, start, i, ordered);
      if stripped == [] {
        break;
      }
      if if ordered then IsOrdered(stripped) else IsBullet(stripped) {
        items := items + 1;
        i := i + 1;
        continue;
      }
      if (if ordered then IsBullet(stripped) else IsOrdered(stripped)) || IsBlockBreak(stripped) {
        break;
      }
      if items == 0 {
        break;
      }
      i := i + 1;
    }
  }

  method TableEnd(lines: seq<string>, from: nat) returns (to: nat)
    requires from + 1 < |lines|
    ensures from < to <= |lines| && Extent(lines, Table, from, to)
  {
    to := from + 2;
    while to < |lines| && IsTableRow(Strip(lines[to]))
      invariant from + 2 <= to <= |lines| && forall k :: from + 2 <= k < to ==> IsTableRow(Strip(lines[k]))
    {
      to := to + 1;
    }
  }

  /** Where the block that starts at a line ends. */
  method BlockEnd(lines: seq<string>, i: nat, kind: Kind) returns (to: nat)
    requires i < |lines| && kind == KindAt(lines, i) && kind != Paragraph && kind != Quote
    ensures i < to <= |lines| && Extent(lines, kind, i, to)
  {
    to := i + 1;
    if kind == Fence {
      to := FenceEnd(lines, i);
    } else if kind == Html {
      to := HtmlEnd(lines, i);
    } else if kind == Bullets || kind == Numbered {
      var items;
      to, items := CollectListItems(lines, i, kind == Numbered);
    } else if kind == Table {
      to := TableEnd(lines, i);
    }
  }

  lemma InnerIsBlock(source: string, s: Span, text: string)
    requires SpanOk(SplitLines(source), s) && InnerSource(SplitLines(source), s) == Some(text)
             && Rendered(text, s.inner)
    ensures Block(source, s)
  {
  }

  /** The block that starts at a line outside paragraphs. */
  method NextBlock(source: string, lines: seq<string>, i: nat) returns (span: Span)
    requires lines == SplitLines(source) && i < |lines| && !IsText(lines, i)
    ensures span.from == i < span.to <= |lines| && Block(source, span)
    decreases |source|, 0
  {
    var kind := KindAt(lines, i);
    if kind == Quote {
      var to, quoted := QuoteEnd(lines, i);
      InnerIsShorter(source, Span(Quote, i, to, []));
      var inner := RenderMarkdown(Join(quoted, "\n"));
      InnerIsBlock(source, Span(Quote, i, to, inner), Join(quoted, "\n"));
      return Span(Quote, i, to, inner);
    }
    var to := BlockEnd(lines, i, kind);
    if kind == Html && TagOf(lines[i]) == "div" {
      var body := DivBody(Join(lines[i..to], "\n"));
      if body.Some? {
        InnerIsShorter(source, Span(Html, i, to, []));
        var inner := RenderMarkdown(body.value);
        InnerIsBlock(source, Span(Html, i, to, inner), body.value);
        return Span(Html, i, to, inner);
      }
    }
    return Span(kind, i, to, []);
  }

  /** The blocks of a source. It terminates, its blocks cover all lines in order, each once, every block is of the kind
      its first line calls for and ends where it must, and quotations and divs are rendered inside likewise. */
  method RenderMarkdown(source: string) returns (spans: seq<Span>)
    ensures Rendered(source, spans)
    decreases |source|, 1
  {
    var lines := SplitLines(source);
    spans := [];
    var para, i := 0, 0;
    while i < |lines|
      invariant Collecting(lines, spans, para, i) && AllBlocks(source, spans)
      decreases |lines| - i
    {
      var text := IsText(lines, i);
      if text {
        TextKeeps(lines, spans, para, i);
        i := i + 1;
        continue;
      }
      var span := NextBlock(source, lines, i);
      BlockKeeps(source, spans, para, i, span);
      spans := Flushed(spans, para, i);
      spans := spans + [span];
      para, i := span.to, span.to;
    }
    FlushKeeps(source, spans, para, i);
    spans := Flushed(spans, para, i);
  }
}
