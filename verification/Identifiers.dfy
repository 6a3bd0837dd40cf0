/** SQL identifiers made from arbitrary labels (`sanitize_ident`, the same text in
    xtask/src/neo4j_import.rs and xtask/src/neo4j_verify.rs). */
module Identifiers {
  import opened Text

  predicate IsWordChar(c: char) { IsLower(c) || IsDigit(c) || c == '_' }

  /** Letters and digits in lower case, underscores kept, and other characters turned into one
      underscore unless one precedes. */
  function Fold(s: string, out: string): string
    decreases |s|
  {
    if s == [] then out
    else if IsAlnum(s[0]) then Fold(s[1..], out + [Lower(s[0])])
    else if s[0] == '_' then Fold(s[1..], out + ['_'])
    else if out != [] && out[|out| - 1] == '_' then Fold(s[1..], out)
    else Fold(s[1..], out + ['_'])
  }

  function DropLeading(s: string): string {
    if s != [] && s[0] == '_' then DropLeading(s[1..]) else s
  }

  function DropTrailing(s: string): string {
    if s != [] && s[|s| - 1] == '_' then DropTrailing(s[..|s| - 1]) else s
  }

  function Named(trimmed: string): string {
    if trimmed == [] then "unnamed"
    else if IsDigit(trimmed[0]) then "n_" + trimmed
    else trimmed
  }

  function Sanitize(value: string): string { Named(DropTrailing(DropLeading(Fold(Trim(value), [])))) }

  method SanitizeIdent(value: string) returns (r: string)
    ensures r == Sanitize(value)
    ensures NormalForm(r)
  {
    var trimmed, out := Trim(value), "";
    for i := 0 to |trimmed|
      invariant Fold(trimmed[i..], out) == Fold(trimmed, [])
    {
      var ch := trimmed[i];
      assert trimmed[i..][0] == ch && trimmed[i..][1..] == trimmed[i + 1..];
      if IsAlnum(ch) {
        out := out + [Lower(ch)];
      } else if ch == '_' {
        out := out + [ch];
      } else if !(out != [] && out[|out| - 1] == '_') {
        out := out + ['_'];
      }
    }
    assert trimmed[|trimmed|..] == [];
    SanitizeIsNormal(value);
    var core := DropTrailing(DropLeading(out));
    if core == "" {
      return "unnamed";
    } else if IsDigit(core[0]) {
      return "n_" + core;
    }
    return core;
  }

  /** Non-empty, over a-z, 0-9 and underscore, from a letter to a letter or digit. */
  ghost predicate NormalForm(s: string) {
    && s != []
    && IsLower(s[0])
    && s[|s| - 1] != '_'
    && forall i :: 0 <= i < |s| ==> IsWordChar(s[i])
  }

  lemma {:induction false} FoldWordChars(s: string, out: string)
    requires forall i :: 0 <= i < |out| ==> IsWordChar(out[i])
    ensures forall i :: 0 <= i < |Fold(s, out)| ==> IsWordChar(Fold(s, out)[i])
    decreases |s|
  {
    if s != [] {
      if IsAlnum(s[0]) {
        FoldWordChars(s[1..], out + [Lower(s[0])]);
      } else if s[0] == '_' {
        FoldWordChars(s[1..], out + ['_']);
      } else if out != [] && out[|out| - 1] == '_' {
        FoldWordChars(s[1..], out);
      } else {
        FoldWordChars(s[1..], out + ['_']);
      }
    }
  }

  /** Folding leaves a string of word characters as it is, runs of underscores included. */
  lemma {:induction false} FoldKeepsWordChars(s: string, out: string)
    requires forall i :: 0 <= i < |s| ==> IsWordChar(s[i])
    ensures Fold(s, out) == out + s
    decreases |s|
  {
    if s == [] {
      assert out + s == out;
    } else {
      FoldKeepsWordChars(s[1..], out + [s[0]]);
      assert out + [s[0]] + s[1..] == out + s;
    }
  }

  lemma {:induction false} DropLeadingShape(s: string)
    ensures DropLeading(s) != [] ==> DropLeading(s)[0] != '_'
    ensures |DropLeading(s)| <= |s| && DropLeading(s) == s[|s| - |DropLeading(s)|..]
    decreases |s|
  {
    if s != [] && s[0] == '_' { DropLeadingShape(s[1..]); }
  }

  lemma {:induction false} DropTrailingShape(s: string)
    ensures DropTrailing(s) != [] ==> DropTrailing(s)[|DropTrailing(s)| - 1] != '_'
    ensures DropTrailing(s) <= s
    decreases |s|
  {
    if s != [] && s[|s| - 1] == '_' { DropTrailingShape(s[..|s| - 1]); }
  }

  lemma NamedIsNormal(core: string)
    requires forall i :: 0 <= i < |core| ==> IsWordChar(core[i])
    requires core != [] ==> core[0] != '_' && core[|core| - 1] != '_'
    ensures NormalForm(Named(core))
  {
    if core != [] && IsDigit(core[0]) {
      var r := "n_" + core;
      assert forall i :: 2 <= i < |r| ==> r[i] == core[i - 2];
      assert r[|r| - 1] == core[|core| - 1];
    }
  }

  /** Whatever the input, the result is an identifier. */
  lemma SanitizeIsNormal(value: string)
    ensures NormalForm(Sanitize(value))
  {
    var folded := Fold(Trim(value), []);
    FoldWordChars(Trim(value), []);
    DropLeadingShape(folded);
    DropTrailingShape(DropLeading(folded));
    NamedIsNormal(DropTrailing(DropLeading(folded)));
  }

  lemma WordCharsAreNotSpaces(s: string)
    requires NormalForm(s)
    ensures Trim(s) == s
  {
    assert IsWordChar(s[0]) && IsWordChar(s[|s| - 1]);
    TrimmedIsFixed(s);
  }

  lemma NormalFormIsFixed(s: string)
    requires NormalForm(s)
    ensures Sanitize(s) == s
  {
    WordCharsAreNotSpaces(s);
    FoldKeepsWordChars(s, []);
    assert [] + s == s;
  }

  /** Sanitizing twice is sanitizing once, and trimming first makes no difference. */
  lemma SanitizeTwice(value: string)
    ensures Sanitize(Sanitize(value)) == Sanitize(value)
    ensures Sanitize(Trim(value)) == Sanitize(value)
  {
    SanitizeIsNormal(value);
    NormalFormIsFixed(Sanitize(value));
    TrimTwice(value);
  }
}
