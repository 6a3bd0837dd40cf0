/** The body of a div (`render_markdown`, docs/build.py): what the pattern ^<div[^>]*>\s*\n(.*?)\n\s*</div>\s*$
    captures, a full stop standing for any character. */
module MarkdownDiv {
  import opened Wrappers
  import opened Text

  predicate PySpace(c: char) { IsSpace(c) || '\U{001C}' <= c <= '\U{001F}' }

  predicate AllSpace(s: string) { forall i :: 0 <= i < |s| ==> PySpace(s[i]) }

  const OPENING: string := "<div"
  const CLOSING: string := "</div>"

  /** A way the pattern fits a text. */
  datatype DivMatch = DivMatch(attrs: string, lead: string, body: string, indent: string, trail: string)

  function DivText(m: DivMatch): string {
    OPENING + m.attrs + ">" + m.lead + "\n" + m.body + "\n" + m.indent + CLOSING + m.trail
  }

  predicate Fits(s: string, m: DivMatch) {
    s == DivText(m) && '>' !in m.attrs && AllSpace(m.lead) && AllSpace(m.indent) && AllSpace(m.trail)
  }

  // ----- the search -----

  /** The first closing angle bracket from a position on. */
  function TagClose(s: string, i: nat): (r: nat)
    requires i <= |s|
    ensures i <= r <= |s|
    decreases |s| - i
  {
    if i == |s| || s[i] == '>' then i else TagClose(s, i + 1)
  }

  /** The end of the white space that starts at a position. */
  function SpaceEnd(s: string, i: nat): (r: nat)
    requires i <= |s|
    ensures i <= r <= |s|
    decreases |s| - i
  {
    if i == |s| || !PySpace(s[i]) then i else SpaceEnd(s, i + 1)
  }

  /** A line feed, white space, the closing tag and white space up to the end. */
  predicate ClosesAt(s: string, k: nat) {
    && k < |s| && s[k] == '\n'
    && var e := SpaceEnd(s, k + 1); CLOSING <= s[e..] && AllSpace(s[e + |CLOSING|..])
  }

  /** The shortest body from a position on: the first place where the div closes. */
  function BodyEnd(s: string, i: nat): (r: Option<nat>)
    requires i <= |s|
    ensures r.Some? ==> i <= r.value < |s|
    decreases |s| - i
  {
    if i == |s| then None else if ClosesAt(s, i) then Some(i) else BodyEnd(s, i + 1)
  }

  predicate StartsAt(s: string, p: nat) { p < |s| && s[p] == '\n' && BodyEnd(s, p + 1).Some? }

  /** The last line feed before hi, and not before lo, after which the div closes. */
  function BodyStart(s: string, lo: nat, hi: nat): (r: Option<nat>)
    requires lo <= hi <= |s|
    ensures r.Some? ==> lo <= r.value < hi && StartsAt(s, r.value)
    decreases hi
  {
    if lo == hi then None else if StartsAt(s, hi - 1) then Some(hi - 1) else BodyStart(s, lo, hi - 1)
  }

  /** Where the body starts and ends. White space after the opening tag is taken greedily and given back up to a line
      feed as long as nothing fits; from there the body is the shortest. */
  function BodyPlace(s: string, gt: nat): (r: Option<(nat, nat)>)
    requires gt < |s|
    ensures r.Some? ==> gt < r.value.0 < r.value.1 < |s|
  {
    match BodyStart(s, gt + 1, SpaceEnd(s, gt + 1))
    case None => None
    case Some(p) => Some((p, BodyEnd(s, p + 1).value))
  }

  function DivBody(s: string): Option<string> {
    if !(OPENING <= s) then None
    else
      var gt := TagClose(s, |OPENING|);
      if gt == |s| then None
      else
        match BodyPlace(s, gt)
        case None => None
        case Some((p, k)) => Some(s[p + 1..k])
  }

  // ----- what it finds -----

  predicate SpaceOn(s: string, i: nat, j: nat)
    requires j <= |s|
  {
    forall k :: i <= k < j ==> PySpace(s[k])
  }

  predicate TagOn(s: string, i: nat, j: nat)
    requires j <= |s|
  {
    forall k :: i <= k < j ==> s[k] != '>'
  }

  /** A fit by its positions: the bracket of the opening tag, the line feeds around the body and the closing tag. */
  predicate Cut(s: string, gt: nat, p: nat, k: nat, e: nat) { p < k && CutHead(s, gt, p) && CutTail(s, k, e) }

  predicate CutHead(s: string, gt: nat, p: nat) {
    && |OPENING| <= gt < p < |s| && OPENING <= s && s[gt] == '>' && s[p] == '\n'
    && TagOn(s, |OPENING|, gt) && SpaceOn(s, gt + 1, p)
  }

  predicate CutTail(s: string, k: nat, e: nat) {
    && k < e <= |s| - |CLOSING| && s[k] == '\n' && CLOSING <= s[e..]
    && SpaceOn(s, k + 1, e) && SpaceOn(s, e + |CLOSING|, |s|)
  }

  function Parts(s: string, gt: nat, p: nat, k: nat, e: nat): DivMatch
    requires |OPENING| <= gt < p < k < e <= |s| - |CLOSING|
  {
    DivMatch(s[|OPENING|..gt], s[gt + 1..p], s[p + 1..k], s[k + 1..e], s[e + |CLOSING|..])
  }

  lemma PartsText(s: string, gt: nat, p: nat, k: nat, e: nat)
    requires |OPENING| <= gt < p < k < e <= |s| - |CLOSING|
    requires OPENING <= s && s[gt] == '>' && s[p] == '\n' && s[k] == '\n' && CLOSING <= s[e..]
    ensures DivText(Parts(s, gt, p, k, e)) == s
  {
    assert s[..|OPENING|] == OPENING && s[e..e + |CLOSING|] == CLOSING;
    var head, mid := s[..gt + 1], s[..k + 1];
    assert head == OPENING + s[|OPENING|..gt] + ">";
    assert mid == head + s[gt + 1..p] + "\n" + s[p + 1..k] + "\n";
    assert s == mid + s[k + 1..e] + CLOSING + s[e + |CLOSING|..];
  }

  lemma CutFits(s: string, gt: nat, p: nat, k: nat, e: nat)
    requires Cut(s, gt, p, k, e)
    ensures Fits(s, Parts(s, gt, p, k, e))
  {
    PartsText(s, gt, p, k, e);
  }

  lemma HeadIsCut(attrs: string, lead: string, rest: string)
    requires '>' !in attrs && AllSpace(lead)
    ensures CutHead(OPENING + attrs + ">" + lead + "\n" + rest, |OPENING| + |attrs|, |OPENING| + |attrs| + 1 + |lead|)
  {
    var s, gt := OPENING + attrs + ">" + lead + "\n" + rest, |OPENING| + |attrs|;
    assert forall i :: |OPENING| <= i < gt ==> s[i] == attrs[i - |OPENING|];
    assert forall i :: gt + 1 <= i < gt + 1 + |lead| ==> s[i] == lead[i - gt - 1];
  }

  lemma TailIsCut(front: string, indent: string, trail: string)
    requires AllSpace(indent) && AllSpace(trail)
    ensures CutTail(front + "\n" + indent + CLOSING + trail, |front|, |front| + 1 + |indent|)
  {
    var s, k, e := front + "\n" + indent + CLOSING + trail, |front|, |front| + 1 + |indent|;
    assert s[e..] == CLOSING + trail;
    assert forall i :: k + 1 <= i < e ==> s[i] == indent[i - k - 1];
    assert forall i :: e + |CLOSING| <= i < |s| ==> s[i] == trail[i - e - |CLOSING|];
  }

  lemma FitIsCut(m: DivMatch, gt: nat, p: nat, k: nat, e: nat)
    requires Fits(DivText(m), m)
    requires gt == |OPENING| + |m.attrs| && p == gt + 1 + |m.lead| && k == p + 1 + |m.body| && e == k + 1 + |m.indent|
    ensures Cut(DivText(m), gt, p, k, e)
  {
    var front, rest := OPENING + m.attrs + ">" + m.lead + "\n", m.body + "\n" + m.indent + CLOSING + m.trail;
    assert DivText(m) == front + rest == (front + m.body) + "\n" + m.indent + CLOSING + m.trail;
    HeadIsCut(m.attrs, m.lead, rest);
    TailIsCut(front + m.body, m.indent, m.trail);
  }

  lemma {:induction false} SpaceEndStops(s: string, i: nat)
    requires i <= |s|
    ensures SpaceOn(s, i, SpaceEnd(s, i)) && (SpaceEnd(s, i) < |s| ==> !PySpace(s[SpaceEnd(s, i)]))
    decreases |s| - i
  {
    if i < |s| && PySpace(s[i]) { SpaceEndStops(s, i + 1); }
  }

  lemma {:induction false} SpaceEndReaches(s: string, i: nat, j: nat)
    requires i <= j <= |s| && SpaceOn(s, i, j)
    ensures SpaceEnd(s, i) >= j && (j < |s| && !PySpace(s[j]) ==> SpaceEnd(s, i) == j)
    decreases j - i
  {
    if i < j { SpaceEndReaches(s, i + 1, j); }
  }

  lemma {:induction false} TagCloseStops(s: string, i: nat)
    requires i <= |s|
    ensures TagOn(s, i, TagClose(s, i)) && (TagClose(s, i) < |s| ==> s[TagClose(s, i)] == '>')
    decreases |s| - i
  {
    if i < |s| && s[i] != '>' { TagCloseStops(s, i + 1); }
  }

  lemma {:induction false} TagCloseIs(s: string, i: nat, j: nat)
    requires i <= j < |s| && s[j] == '>' && TagOn(s, i, j)
    ensures TagClose(s, i) == j
    decreases j - i
  {
    if i < j { TagCloseIs(s, i + 1, j); }
  }

  lemma {:induction false} BodyEndCloses(s: string, i: nat)
    requires i <= |s|
    ensures BodyEnd(s, i).Some? ==> ClosesAt(s, BodyEnd(s, i).value)
    decreases |s| - i
  {
    if i < |s| && !ClosesAt(s, i) { BodyEndCloses(s, i + 1); }
  }

  lemma {:induction false} BodyEndIsFirst(s: string, i: nat, k: nat)
    requires i <= k && ClosesAt(s, k)
    ensures BodyEnd(s, i).Some? && BodyEnd(s, i).value <= k
    decreases k - i
  {
    if !ClosesAt(s, i) { BodyEndIsFirst(s, i + 1, k); }
  }

  lemma {:induction false} BodyStartIsLast(s: string, lo: nat, hi: nat, p: nat)
    requires lo <= p < hi <= |s| && StartsAt(s, p)
    ensures BodyStart(s, lo, hi).Some? && p <= BodyStart(s, lo, hi).value
    decreases hi
  {
    if !StartsAt(s, hi - 1) { BodyStartIsLast(s, lo, hi - 1, p); }
  }

  lemma ClosesIsCut(s: string, k: nat)
    requires ClosesAt(s, k)
    ensures CutTail(s, k, SpaceEnd(s, k + 1))
  {
    var e := SpaceEnd(s, k + 1);
    SpaceEndStops(s, k + 1);
    var rest := s[e + |CLOSING|..];
    assert forall i :: e + |CLOSING| <= i < |s| ==> s[i] == rest[i - e - |CLOSING|];
  }

  lemma CutCloses(s: string, k: nat, e: nat)
    requires CutTail(s, k, e)
    ensures ClosesAt(s, k)
  {
    assert s[e] == s[e..][0] == CLOSING[0];
    SpaceEndReaches(s, k + 1, e);
  }

  lemma StartIsCut(s: string, gt: nat, p: nat)
    requires OPENING <= s && gt == TagClose(s, |OPENING|) < |s| && gt < p < SpaceEnd(s, gt + 1) && s[p] == '\n'
    ensures CutHead(s, gt, p)
  {
    SpaceEndStops(s, gt + 1);
    TagCloseStops(s, |OPENING|);
  }

  /** Where the search ends is a fit. */
  lemma PlaceIsCut(s: string, gt: nat, p: nat, k: nat)
    requires OPENING <= s && gt == TagClose(s, |OPENING|) < |s| && BodyPlace(s, gt) == Some((p, k))
    ensures Cut(s, gt, p, k, SpaceEnd(s, k + 1))
  {
    StartIsCut(s, gt, p);
    BodyEndCloses(s, p + 1);
    ClosesIsCut(s, k);
  }

  lemma CutStarts(s: string, gt: nat, p: nat, k: nat, e: nat)
    requires Cut(s, gt, p, k, e)
    ensures p < SpaceEnd(s, gt + 1) && StartsAt(s, p) && BodyEnd(s, p + 1).value <= k
  {
    SpaceEndReaches(s, gt + 1, p + 1);
    CutCloses(s, k, e);
    BodyEndIsFirst(s, p + 1, k);
  }

  /** Where some fit is, the search ends, and no later than at that fit. */
  lemma StartIsPlaced(s: string, gt: nat, p: nat)
    requires gt < p < |s| && p < SpaceEnd(s, gt + 1) && StartsAt(s, p)
    ensures var r := BodyPlace(s, gt);
            r.Some? && p <= r.value.0 && (r.value.0 == p ==> r.value.1 == BodyEnd(s, p + 1).value)
  {
    BodyStartIsLast(s, gt + 1, SpaceEnd(s, gt + 1), p);
  }

  /** The order in which fits are tried: the most white space before the body first, then the shortest body. */
  predicate Preferred(best: DivMatch, m: DivMatch) {
    |m.lead| < |best.lead| || (|m.lead| == |best.lead| && |best.body| <= |m.body|)
  }

  lemma PlaceFits(s: string, gt: nat, p: nat, k: nat)
    requires OPENING <= s && gt == TagClose(s, |OPENING|) < |s| && BodyPlace(s, gt) == Some((p, k))
    ensures k < SpaceEnd(s, k + 1) <= |s| - |CLOSING| && Fits(s, Parts(s, gt, p, k, SpaceEnd(s, k + 1)))
  {
    PlaceIsCut(s, gt, p, k);
    CutFits(s, gt, p, k, SpaceEnd(s, k + 1));
  }

  /** Every fit begins at the one opening tag, and the search prefers what it finds. */
  lemma FitIsPlaced(s: string, m: DivMatch, gt: nat, p: nat)
    requires Fits(s, m) && gt == |OPENING| + |m.attrs| && p == gt + 1 + |m.lead|
    ensures OPENING <= s && gt == TagClose(s, |OPENING|) < |s|
    ensures var r := BodyPlace(s, gt); r.Some? && p <= r.value.0 && (r.value.0 == p ==> r.value.1 <= p + 1 + |m.body|)
  {
    var k := p + 1 + |m.body|;
    FitIsCut(m, gt, p, k, k + 1 + |m.indent|);
    TagCloseIs(s, |OPENING|, gt);
    CutStarts(s, gt, p, k, k + 1 + |m.indent|);
    StartIsPlaced(s, gt, p);
  }

  /** The fit the search ends with. */
  function Best(s: string): (m: DivMatch)
    requires DivBody(s).Some?
    ensures Fits(s, m) && m.body == DivBody(s).value
  {
    var gt := TagClose(s, |OPENING|);
    var (p, k) := BodyPlace(s, gt).value;
    PlaceFits(s, gt, p, k);
    Parts(s, gt, p, k, SpaceEnd(s, k + 1))
  }

  lemma BestIsPreferred(s: string, m: DivMatch)
    requires Fits(s, m)
    ensures DivBody(s).Some? && Preferred(Best(s), m)
  {
    FitIsPlaced(s, m, |OPENING| + |m.attrs|, |OPENING| + |m.attrs| + 1 + |m.lead|);
  }

  /** A body is captured exactly when the pattern fits; it then is the body of a fit, preferred to every other fit. */
  lemma DivBodyIsExact(s: string)
    ensures DivBody(s).Some? <==> exists m :: Fits(s, m)
    ensures forall m :: Fits(s, m) ==> DivBody(s).Some? && Preferred(Best(s), m)
  {
    assert DivBody(s).Some? ==> Fits(s, Best(s));
    forall m | Fits(s, m) ensures DivBody(s).Some? && Preferred(Best(s), m) { BestIsPreferred(s, m); }
  }

  lemma FitIsLonger(m: DivMatch)
    ensures |m.body| + |OPENING| + |CLOSING| + 3 <= |DivText(m)|
  {
  }

  lemma DivBodyIsShorter(s: string)
    requires DivBody(s).Some?
    ensures |DivBody(s).value| + |OPENING| + |CLOSING| + 3 <= |s|
  {
    FitIsLonger(Best(s));
  }
}
