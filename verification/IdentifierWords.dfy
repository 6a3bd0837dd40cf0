/** What the normal form of an identifier makes of a value (`sanitize_ident`, xtask/src/neo4j_import.rs), character by
    character and word by word. */
module IdentifierWords {
  import opened Text
  import opened Identifiers

  // ----- what becomes of each character -----

  /** What a character of the trimmed value becomes: small letters, digits and underscores stay, capitals become small,
      and any other character becomes an underscore if it is the first or follows a letter or digit. */
  function Becomes(s: string, i: nat): string
    requires i < |s|
  {
    var c := s[i];
    if 'a' <= c <= 'z' || '0' <= c <= '9' || c == '_' then [c]
    else if 'A' <= c <= 'Z' then [(c as int + 32) as char]
    else if i == 0 || IsAlnum(s[i - 1]) then "_"
    else ""
  }

  function BecomesUpTo(s: string, n: nat): string
    requires n <= |s|
  {
    if n == 0 then "" else BecomesUpTo(s, n - 1) + Becomes(s, n - 1)
  }

  lemma BecomesShape(s: string, i: nat)
    requires i < |s|
    ensures |Becomes(s, i)| <= 1
    ensures Becomes(s, i) == [] <==> !IsAlnum(s[i]) && s[i] != '_' && i > 0 && !IsAlnum(s[i - 1])
    ensures Becomes(s, i) != [] ==> (Becomes(s, i)[0] == '_' <==> !IsAlnum(s[i]))
    ensures IsAlnum(s[i]) ==> Becomes(s, i) == [Lower(s[i])]
  {
    CasesAre(s[i]);
  }

  /** What is there before a character ends with a letter or digit exactly when the character before is one. */
  predicate Ends(out: string, alnum: bool) { out != [] && (out[|out| - 1] == '_' <==> !alnum) }

  lemma {:induction false} EndsAs(s: string, i: nat)
    requires i <= |s|
    ensures i == 0 ==> BecomesUpTo(s, i) == []
    ensures i > 0 ==> Ends(BecomesUpTo(s, i), IsAlnum(s[i - 1]))
  {
    if i > 0 {
      EndsAs(s, i - 1);
      BecomesShape(s, i - 1);
      EndsOn(BecomesUpTo(s, i - 1), Becomes(s, i - 1));
    }
  }

  lemma EndsOn(out: string, more: string)
    requires |more| <= 1
    ensures more == [] ==> out + more == out
    ensures more != [] ==> (out + more)[|out + more| - 1] == more[0]
  {
  }

  lemma FoldStep(s: string, i: nat, out: string)
    requires i < |s| && (i == 0 ==> out == []) && (i > 0 ==> Ends(out, IsAlnum(s[i - 1])))
    ensures Fold(s[i..], out) == Fold(s[i + 1..], out + Becomes(s, i))
  {
    assert s[i..][0] == s[i] && s[i..][1..] == s[i + 1..];
    BecomesShape(s, i);
    EndsOn(out, Becomes(s, i));
  }

  lemma {:induction false} FoldFrom(s: string, i: nat)
    requires i <= |s|
    ensures Fold(s[i..], BecomesUpTo(s, i)) == BecomesUpTo(s, |s|)
    decreases |s| - i
  {
    if i < |s| {
      EndsAs(s, i);
      FoldStep(s, i, BecomesUpTo(s, i));
      FoldFrom(s, i + 1);
    } else {
      assert s[i..] == [];
    }
  }

  /** A value's normal form: its trimmed characters each as it becomes, without underscores around, with "n_" before a
      digit, or "unnamed". */
  lemma SanitizeIs(value: string)
    ensures var all := BecomesUpTo(Trim(value), |Trim(value)|);
            var core := DropTrailing(DropLeading(all));
            Sanitize(value) == if core == "" then "unnamed" else if '0' <= core[0] <= '9' then "n_" + core else core
  {
    FoldFrom(Trim(value), 0);
    assert Trim(value)[0..] == Trim(value);
  }

  // ----- words -----

  /** Letters, digits and underscores, from a letter or digit to a letter or digit. */
  predicate IsWord(s: string) {
    && s != [] && IsAlnum(s[0]) && IsAlnum(s[|s| - 1])
    && forall i :: 0 <= i < |s| ==> IsAlnum(s[i]) || s[i] == '_'
  }

  /** Characters that are neither letters nor digits nor underscores. */
  predicate IsGap(s: string) { forall i :: 0 <= i < |s| ==> !IsAlnum(s[i]) && s[i] != '_' }

  /** Each capital raised by 32 code points. */
  predicate IsLowered(r: string, s: string) {
    |r| == |s| && forall i :: 0 <= i < |s| ==> r[i] as int == s[i] as int + if 'A' <= s[i] <= 'Z' then 32 else 0
  }

  lemma LoweredIs(r: string, s: string)
    requires IsLowered(r, s)
    ensures r == ToLower(s)
  {
    forall i | 0 <= i < |s| ensures r[i] == ToLower(s)[i] { CasesAre(s[i]); }
  }

  lemma {:induction false} FoldWord(w: string, rest: string, out: string)
    requires forall i :: 0 <= i < |w| ==> IsAlnum(w[i]) || w[i] == '_'
    ensures Fold(w + rest, out) == Fold(rest, out + ToLower(w))
    decreases |w|
  {
    if w == [] {
      assert w + rest == rest && out + ToLower(w) == out;
    } else {
      assert (w + rest)[1..] == w[1..] + rest;
      FoldWord(w[1..], rest, out + [Lower(w[0])]);
      assert out + [Lower(w[0])] + ToLower(w[1..]) == out + ToLower(w);
    }
  }

  lemma {:induction false} FoldGap(g: string, rest: string, out: string)
    requires IsGap(g) && g != []
    ensures Fold(g + rest, out) == Fold(rest, if out != [] && out[|out| - 1] == '_' then out else out + ['_'])
    decreases |g|
  {
    assert (g + rest)[1..] == g[1..] + rest;
    if |g| == 1 {
      assert g[1..] + rest == rest;
    } else {
      FoldGap(g[1..], rest, if out != [] && out[|out| - 1] == '_' then out else out + ['_']);
    }
  }

  /** Words with gaps between them. */
  function Spaced(words: seq<string>, gaps: seq<string>): string
    requires |gaps| + 1 == |words|
  {
    if |words| == 1 then words[0] else words[0] + gaps[0] + Spaced(words[1..], gaps[1..])
  }

  predicate AreSpaced(words: seq<string>, gaps: seq<string>) {
    && |gaps| + 1 == |words|
    && (forall i :: 0 <= i < |words| ==> IsWord(words[i]))
    && forall i :: 0 <= i < |gaps| ==> gaps[i] != [] && IsGap(gaps[i])
  }

  function LowerAll(words: seq<string>): (r: seq<string>)
    ensures |r| == |words|
  {
    if words == [] then [] else [ToLower(words[0])] + LowerAll(words[1..])
  }

  lemma {:induction false} FoldSpaced(words: seq<string>, gaps: seq<string>, rest: string, out: string)
    requires AreSpaced(words, gaps)
    ensures Fold(Spaced(words, gaps) + rest, out) == Fold(rest, out + Join(LowerAll(words), "_"))
    decreases |words|
  {
    assert IsWord(words[0]);
    if |words| == 1 {
      FoldWord(words[0], rest, out);
      assert LowerAll(words) == [ToLower(words[0])];
    } else {
      var tail, low := Spaced(words[1..], gaps[1..]), out + ToLower(words[0]);
      assert gaps[0] != [] && IsGap(gaps[0]);
      assert Spaced(words, gaps) + rest == words[0] + (gaps[0] + (tail + rest));
      FoldWord(words[0], gaps[0] + (tail + rest), out);
      WordEndsAlnum(words[0]);
      FoldGap(gaps[0], tail + rest, low);
      FoldSpaced(words[1..], gaps[1..], rest, low + ['_']);
      var more := Join(LowerAll(words[1..]), "_");
      assert LowerAll(words)[1..] == LowerAll(words[1..]);
      assert low + ['_'] + more == out + (ToLower(words[0]) + "_" + more);
    }
  }

  lemma WordEndsAlnum(w: string)
    requires IsWord(w)
    ensures ToLower(w) != [] && ToLower(w)[|w| - 1] != '_' && ToLower(w)[0] != '_'
  {
  }

  lemma {:induction false} JoinedEnds(words: seq<string>)
    requires words != [] && forall i :: 0 <= i < |words| ==> IsWord(words[i])
    ensures IsWord(words[0])
    ensures var r := Join(LowerAll(words), "_");
            r != [] && r[0] == Lower(words[0][0]) && r[0] != '_' && r[|r| - 1] != '_'
    decreases |words|
  {
    assert IsWord(words[0]);
    WordEndsAlnum(words[0]);
    if |words| > 1 {
      JoinedEnds(words[1..]);
      assert LowerAll(words)[1..] == LowerAll(words[1..]);
    } else {
      assert LowerAll(words) == [ToLower(words[0])];
    }
  }

  lemma WordIsTrimmed(value: string)
    requires value != [] && !IsSpace(value[0]) && !IsSpace(value[|value| - 1])
    ensures Trim(value) == value
  {
    TrimmedIsFixed(value);
  }

  /** An underscore for a gap, if there is one. */
  function Mark(gap: string): string { if gap == [] then "" else "_" }

  lemma FoldAround(lead: string, words: seq<string>, gaps: seq<string>, trail: string)
    requires AreSpaced(words, gaps) && IsGap(lead) && IsGap(trail)
    ensures Fold(lead + Spaced(words, gaps) + trail, []) == Mark(lead) + Join(LowerAll(words), "_") + Mark(trail)
  {
    var middle, joined := Spaced(words, gaps), Join(LowerAll(words), "_");
    FoldLead(lead, middle + trail);
    assert lead + middle + trail == lead + (middle + trail);
    FoldSpaced(words, gaps, trail, Mark(lead));
    JoinedEnds(words);
    FoldTrail(trail, Mark(lead) + joined);
  }

  lemma FoldLead(lead: string, rest: string)
    requires IsGap(lead)
    ensures Fold(lead + rest, []) == Fold(rest, Mark(lead))
  {
    if lead != [] {
      FoldGap(lead, rest, []);
      assert [] + ['_'] == "_";
    } else {
      assert lead + rest == rest;
    }
  }

  lemma FoldTrail(trail: string, out: string)
    requires IsGap(trail) && out != [] && out[|out| - 1] != '_'
    ensures Fold(trail, out) == out + Mark(trail)
  {
    if trail != [] {
      FoldGap(trail, "", out);
      assert trail + "" == trail;
    }
  }

  lemma LeadDrops(lead: string, x: string)
    requires x != [] && x[0] != '_'
    ensures DropLeading(Mark(lead) + x) == x
  {
    if lead == [] { assert Mark(lead) + x == x; } else { assert (Mark(lead) + x)[1..] == x; }
  }

  lemma TrailDrops(x: string, trail: string)
    requires x != [] && x[|x| - 1] != '_'
    ensures DropTrailing(x + Mark(trail)) == x
  {
    if trail == [] { assert x + Mark(trail) == x; } else { assert (x + Mark(trail))[..|x|] == x; }
  }

  lemma MarksDrop(lead: string, core: string, trail: string)
    requires core != [] && core[0] != '_' && core[|core| - 1] != '_'
    ensures DropTrailing(DropLeading(Mark(lead) + core + Mark(trail))) == core
  {
    assert Mark(lead) + core + Mark(trail) == Mark(lead) + (core + Mark(trail));
    LeadDrops(lead, core + Mark(trail));
    TrailDrops(core, trail);
  }

  /** Words become small and are joined by single underscores, whatever gaps are between and around them; a digit in
      front gets "n_". */
  lemma WordsAreJoined(value: string, lead: string, words: seq<string>, gaps: seq<string>, trail: string)
    requires AreSpaced(words, gaps) && IsGap(lead) && IsGap(trail) && Trim(value) == lead + Spaced(words, gaps) + trail
    ensures words != [] && IsWord(words[0])
    ensures var joined := Join(LowerAll(words), "_");
            Sanitize(value) == if '0' <= words[0][0] <= '9' then "n_" + joined else joined
  {
    FoldAround(lead, words, gaps, trail);
    JoinedEnds(words);
    MarksDrop(lead, Join(LowerAll(words), "_"), trail);
  }

  lemma FoldWhole(w: string)
    requires IsWord(w)
    ensures Fold(w, []) == ToLower(w)
  {
    FoldWord(w, "", []);
    assert w + "" == w && [] + ToLower(w) == ToLower(w);
  }

  lemma WordCore(w: string)
    requires IsWord(w)
    ensures DropTrailing(DropLeading(ToLower(w))) == ToLower(w)
  {
    WordEndsAlnum(w);
  }

  /** Case is ignored and everything else kept in a word that begins with a letter. */
  lemma WordIsLowered(v: string, r: string)
    requires IsWord(v) && !IsDigit(v[0]) && IsLowered(r, v)
    ensures Sanitize(v) == r
  {
    WordIsTrimmed(v);
    FoldWhole(v);
    WordCore(v);
    LoweredIs(r, v);
    assert r[0] == Lower(v[0]);
  }

  lemma {:induction false} NothingLeft(s: string, out: string)
    requires forall i :: 0 <= i < |s| ==> !IsAlnum(s[i])
    requires forall i :: 0 <= i < |out| ==> out[i] == '_'
    ensures forall i :: 0 <= i < |Fold(s, out)| ==> Fold(s, out)[i] == '_'
    decreases |s|
  {
    if s != [] {
      NothingLeft(s[1..], out);
      NothingLeft(s[1..], out + ['_']);
    }
  }

  lemma {:induction false} AllDropped(s: string)
    requires forall i :: 0 <= i < |s| ==> s[i] == '_'
    ensures DropLeading(s) == ""
    decreases |s|
  {
    if s != [] { AllDropped(s[1..]); }
  }

  /** A value without a letter or digit is "unnamed". */
  lemma WithoutLetters(value: string)
    requires forall i :: 0 <= i < |value| ==> !IsAlnum(value[i])
    ensures Sanitize(value) == "unnamed"
  {
    var lead, trail := TrimIs(value);
    var t := Trim(value);
    forall i | 0 <= i < |t| ensures !IsAlnum(t[i]) { assert t[i] == value[|lead| + i]; }
    NothingLeft(t, []);
    AllDropped(Fold(t, []));
  }
}
