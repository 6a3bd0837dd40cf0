/** Two ways of escaping a string for JSON: character by character (xtask/src/checkworld_lite.rs) and by whole-string
    replacements (xtask/src/check_compat_tasks.rs). Decoding follows section 7 of RFC 8259. */
module JsonText {
  import opened Wrappers

  predicate IsControl(c: char) { c < ' ' || '\U{007F}' <= c <= '\U{009F}' }

  function HexDigit(n: nat): char
    requires n < 16
  {
    if n < 10 then ('0' as int + n) as char else ('a' as int + (n - 10)) as char
  }

  function Hex4(n: nat): (r: string)
    requires n < 0x10000
    ensures |r| == 4
  {
    [HexDigit(n / 4096), HexDigit(n / 256 % 16), HexDigit(n / 16 % 16), HexDigit(n % 16)]
  }

  function EscapeChar(c: char): string {
    if c == '"' then "\\\""
    else if c == '\\' then "\\\\"
    else if c == '\n' then "\\n"
    else if c == '\r' then "\\r"
    else if c == '\t' then "\\t"
    else if IsControl(c) then "\\u" + Hex4(c as int)
    else [c]
  }

  function Escaped(s: string): string { if s == [] then "" else EscapeChar(s[0]) + Escaped(s[1..]) }

  method JsonEscape(value: string) returns (r: string)
    ensures r == Escaped(value)
  {
    r := "";
    assert value[0..] == value;
    for i := 0 to |value|
      invariant r + Escaped(value[i..]) == Escaped(value)
    {
      assert value[i..][0] == value[i] && value[i..][1..] == value[i + 1..];
      Reassociate(r, EscapeChar(value[i]), Escaped(value[i + 1..]));
      r := r + EscapeChar(value[i]);
    }
    assert value[|value|..] == [];
  }

  lemma Reassociate(a: string, b: string, c: string)
    ensures a + (b + c) == (a + b) + c
  {
  }

  // ----- decoding -----

  function HexValue(c: char): Option<nat> {
    if '0' <= c <= '9' then Some(c as int - '0' as int)
    else if 'a' <= c <= 'f' then Some(c as int - 'a' as int + 10)
    else if 'A' <= c <= 'F' then Some(c as int - 'A' as int + 10)
    else None
  }

  function Hex4Value(s: string): (r: Option<nat>)
    ensures r.Some? ==> r.value < 0x10000
  {
    if |s| < 4 || HexValue(s[0]).None? || HexValue(s[1]).None? || HexValue(s[2]).None? || HexValue(s[3]).None? then None
    else Some(HexValue(s[0]).value * 4096 + HexValue(s[1]).value * 256 + HexValue(s[2]).value * 16
              + HexValue(s[3]).value)
  }

  function ShortEscape(c: char): Option<char> {
    if c == '"' || c == '\\' || c == '/' then Some(c)
    else if c == 'b' then Some('\U{0008}')
    else if c == 'f' then Some('\U{000C}')
    else if c == 'n' then Some('\n')
    else if c == 'r' then Some('\r')
    else if c == 't' then Some('\t')
    else None
  }

  function Push(c: char, r: Option<string>): Option<string> { if r.Some? then Some([c] + r.value) else None }

  /** The characters between the quotes of a JSON string; None when they are not well formed. A high surrogate must be
      followed by a low one. */
  function Decoded(s: string): Option<string>
    decreases |s|
  {
    if s == [] then Some("")
    else if s[0] < ' ' || s[0] == '"' then None
    else if s[0] != '\\' then Push(s[0], Decoded(s[1..]))
    else if |s| < 2 then None
    else if s[1] != 'u' then
      var c := ShortEscape(s[1]);
      if c.None? then None else Push(c.value, Decoded(s[2..]))
    else
      var v := Hex4Value(s[2..]);
      if v.None? then None
      else if v.value < 0xD800 || v.value >= 0xE000 then Push(v.value as char, Decoded(s[6..]))
      else if v.value >= 0xDC00 || |s| < 12 || s[6] != '\\' || s[7] != 'u' then None
      else
        var w := Hex4Value(s[8..]);
        if w.None? || w.value < 0xDC00 || w.value >= 0xE000 then None
        else Push((0x10000 + (v.value - 0xD800) * 0x400 + (w.value - 0xDC00)) as char, Decoded(s[12..]))
  }

  lemma HexDigitValue(n: nat)
    requires n < 16
    ensures HexValue(HexDigit(n)) == Some(n)
  {
  }

  lemma Hex4Reads(n: nat, rest: string)
    requires n < 0x10000
    ensures Hex4Value(Hex4(n) + rest) == Some(n)
  {
    HexDigitValue(n / 4096);
    HexDigitValue(n / 256 % 16);
    HexDigitValue(n / 16 % 16);
    HexDigitValue(n % 16);
    var s := Hex4(n) + rest;
    assert s[0] == HexDigit(n / 4096) && s[1] == HexDigit(n / 256 % 16) && s[2] == HexDigit(n / 16 % 16)
           && s[3] == HexDigit(n % 16);
    HexSum(n);
  }

  lemma HexSum(n: nat)
    requires n < 0x10000
    ensures n / 4096 < 16 && n == n / 4096 * 4096 + n / 256 % 16 * 256 + n / 16 % 16 * 16 + n % 16
  {
    assert n / 256 == 16 * (n / 4096) + n / 256 % 16;
    assert n / 16 == 16 * (n / 256) + n / 16 % 16;
  }

  lemma DecodeShort(e: char, c: char, rest: string)
    requires ShortEscape(e) == Some(c) && e != 'u'
    ensures Decoded("\\" + [e] + rest) == Push(c, Decoded(rest))
  {
    var s := "\\" + [e] + rest;
    assert s[0] == '\\' && s[1] == e && s[2..] == rest;
  }

  lemma DecodeControl(c: char, rest: string)
    requires IsControl(c)
    ensures Decoded("\\u" + Hex4(c as int) + rest) == Push(c, Decoded(rest))
  {
    var s := "\\u" + Hex4(c as int) + rest;
    Hex4Reads(c as int, rest);
    assert s[0] == '\\' && s[1] == 'u' && s[2..] == Hex4(c as int) + rest && s[6..] == rest;
  }

  lemma DecodePlain(c: char, rest: string)
    requires !IsControl(c) && c != '"' && c != '\\'
    ensures Decoded([c] + rest) == Push(c, Decoded(rest))
  {
    assert ([c] + rest)[1..] == rest;
  }

  lemma DecodeChar(c: char, rest: string)
    ensures Decoded(EscapeChar(c) + rest) == Push(c, Decoded(rest))
  {
    if c == '"' {
      DecodeShort('"', '"', rest);
      assert "\\\"" == "\\" + ['"'];
    } else if c == '\\' {
      DecodeShort('\\', '\\', rest);
      assert "\\\\" == "\\" + ['\\'];
    } else if c == '\n' {
      DecodeShort('n', '\n', rest);
      assert "\\n" == "\\" + ['n'];
    } else if c == '\r' {
      DecodeShort('r', '\r', rest);
      assert "\\r" == "\\" + ['r'];
    } else if c == '\t' {
      DecodeShort('t', '\t', rest);
      assert "\\t" == "\\" + ['t'];
    } else if IsControl(c) {
      DecodeControl(c, rest);
    } else {
      DecodePlain(c, rest);
    }
  }

  /** Decoding undoes escaping, for every string. */
  lemma {:induction false} DecodeEscaped(s: string)
    ensures Decoded(Escaped(s)) == Some(s)
    decreases |s|
  {
    if s != [] {
      DecodeEscaped(s[1..]);
      DecodeChar(s[0], Escaped(s[1..]));
      assert [s[0]] + s[1..] == s;
    }
  }

  lemma EscapeCharClean(c: char)
    ensures forall i :: 0 <= i < |EscapeChar(c)| ==> !IsControl(EscapeChar(c)[i])
  {
  }

  /** Every quotation mark comes right after a backslash that is not itself escaped. */
  predicate NoRawQuote(s: string) {
    if s == [] then true
    else if s[0] == '\\' then |s| > 1 && NoRawQuote(s[2..])
    else s[0] != '"' && NoRawQuote(s[1..])
  }

  lemma {:induction false} PlainFirst(p: string, rest: string)
    requires NoRawQuote(rest) && forall i :: 0 <= i < |p| ==> p[i] != '\\' && p[i] != '"'
    ensures NoRawQuote(p + rest)
    decreases |p|
  {
    if p == [] {
      assert p + rest == rest;
    } else {
      PlainFirst(p[1..], rest);
      assert (p + rest)[1..] == p[1..] + rest;
    }
  }

  lemma EscapedFirst(c: char, p: string, rest: string)
    requires NoRawQuote(rest) && forall i :: 0 <= i < |p| ==> p[i] != '\\' && p[i] != '"'
    ensures NoRawQuote(['\\', c] + p + rest)
  {
    PlainFirst(p, rest);
    assert (['\\', c] + p + rest)[2..] == p + rest;
  }

  lemma EscapeCharFirst(c: char, rest: string)
    requires NoRawQuote(rest)
    ensures NoRawQuote(EscapeChar(c) + rest)
  {
    var e := EscapeChar(c);
    if e[0] == '\\' {
      EscapedFirst(e[1], e[2..], rest);
      assert ['\\', e[1]] + e[2..] + rest == e + rest;
    } else {
      PlainFirst(e, rest);
    }
  }

  /** Quotation mark, backslash, line feed, carriage return and tab have short escapes, other control characters take
      six characters, with small hexadecimal digits, and everything else stays as it is. */
  lemma EscapeLengths(c: char)
    ensures |EscapeChar(c)| ==
            (if c == '"' || c == '\\' || c == '\n' || c == '\r' || c == '\t' then 2
             else if c < ' ' || '\U{007F}' <= c <= '\U{009F}' then 6 else 1)
    ensures |EscapeChar(c)| > 1 ==> forall i :: 0 <= i < |EscapeChar(c)| ==> !('A' <= EscapeChar(c)[i] <= 'Z')
  {
  }

  /** No control character and no raw quotation mark survives. */
  lemma {:induction false} EscapedIsClean(s: string)
    ensures forall i :: 0 <= i < |Escaped(s)| ==> !IsControl(Escaped(s)[i])
    ensures NoRawQuote(Escaped(s))
    decreases |s|
  {
    if s != [] {
      EscapedIsClean(s[1..]);
      EscapeCharClean(s[0]);
      EscapeCharFirst(s[0], Escaped(s[1..]));
    }
  }

  // ----- whole-string replacements -----

  function Replace(s: string, c: char, with: string): string {
    if s == [] then "" else (if s[0] == c then with else [s[0]]) + Replace(s[1..], c, with)
  }

  function ReplacedInTurn(s: string): string { Replace(Replace(Replace(s, '\\', "\\\\"), '"', "\\\""), '\n', "\\n") }

  lemma {:induction false} ReplaceAppend(a: string, b: string, c: char, with: string)
    ensures Replace(a + b, c, with) == Replace(a, c, with) + Replace(b, c, with)
    decreases |a|
  {
    if a == [] {
      assert a + b == b;
    } else {
      ReplaceAppend(a[1..], b, c, with);
      assert (a + b)[1..] == a[1..] + b;
      Reassociate(if a[0] == c then with else [a[0]], Replace(a[1..], c, with), Replace(b, c, with));
    }
  }

  lemma ReplaceOne(d: char, c: char, with: string)
    ensures Replace([d], c, with) == if d == c then with else [d]
  {
    assert [d][1..] == [];
    assert with + "" == with && [d] + "" == [d];
  }

  lemma ReplaceTwo(d: char, e: char, c: char, with: string)
    requires d != c && e != c
    ensures Replace([d, e], c, with) == [d, e]
  {
    ReplaceAppend([d], [e], c, with);
    ReplaceOne(d, c, with);
    ReplaceOne(e, c, with);
    assert [d] + [e] == [d, e];
  }

  /** What the three replacements make of one character. */
  function Simple(c: char): string {
    if c == '\\' then "\\\\" else if c == '"' then "\\\"" else if c == '\n' then "\\n" else [c]
  }

  lemma InTurnOne(c: char)
    ensures ReplacedInTurn([c]) == Simple(c)
  {
    ReplaceOne(c, '\\', "\\\\");
    if c == '\\' {
      ReplaceTwo('\\', '\\', '"', "\\\"");
      ReplaceTwo('\\', '\\', '\n', "\\n");
    } else {
      ReplaceOne(c, '"', "\\\"");
      if c == '"' { ReplaceTwo('\\', '"', '\n', "\\n"); } else { ReplaceOne(c, '\n', "\\n"); }
    }
  }

  lemma InTurnAppend(a: string, b: string)
    ensures ReplacedInTurn(a + b) == ReplacedInTurn(a) + ReplacedInTurn(b)
  {
    ReplaceAppend(a, b, '\\', "\\\\");
    var a1, b1 := Replace(a, '\\', "\\\\"), Replace(b, '\\', "\\\\");
    ReplaceAppend(a1, b1, '"', "\\\"");
    ReplaceAppend(Replace(a1, '"', "\\\""), Replace(b1, '"', "\\\""), '\n', "\\n");
  }

  lemma InTurnCons(s: string)
    requires s != []
    ensures ReplacedInTurn(s) == Simple(s[0]) + ReplacedInTurn(s[1..])
  {
    assert s == [s[0]] + s[1..];
    InTurnAppend([s[0]], s[1..]);
    InTurnOne(s[0]);
  }

  predicate OnlyNewlines(s: string) { forall i :: 0 <= i < |s| ==> IsControl(s[i]) ==> s[i] == '\n' }

  lemma SimpleIsEscape(c: char)
    ensures EscapeChar(c) == Simple(c) <==> (IsControl(c) ==> c == '\n')
    ensures |Simple(c)| <= |EscapeChar(c)| && (|Simple(c)| == |EscapeChar(c)| <==> (IsControl(c) ==> c == '\n'))
  {
  }

  lemma {:induction false} InTurnIsShorter(s: string)
    ensures |ReplacedInTurn(s)| <= |Escaped(s)| && (|ReplacedInTurn(s)| == |Escaped(s)| <==> OnlyNewlines(s))
    decreases |s|
  {
    if s != [] {
      InTurnIsShorter(s[1..]);
      InTurnCons(s);
      SimpleIsEscape(s[0]);
      assert OnlyNewlines(s) <==> (IsControl(s[0]) ==> s[0] == '\n') && OnlyNewlines(s[1..]) by { OnlyNewlinesCons(s); }
    }
  }

  lemma OnlyNewlinesCons(s: string)
    requires s != []
    ensures OnlyNewlines(s) <==> (IsControl(s[0]) ==> s[0] == '\n') && OnlyNewlines(s[1..])
  {
    if OnlyNewlines(s[1..]) && (IsControl(s[0]) ==> s[0] == '\n') {
      forall i | 0 <= i < |s| && IsControl(s[i]) ensures s[i] == '\n' {
        if i > 0 { assert s[1..][i - 1] == s[i]; }
      }
    }
  }

  lemma {:induction false} SameEscapes(s: string)
    requires OnlyNewlines(s)
    ensures ReplacedInTurn(s) == Escaped(s)
    decreases |s|
  {
    if s != [] {
      OnlyNewlinesCons(s);
      SameEscapes(s[1..]);
      InTurnCons(s);
      SimpleIsEscape(s[0]);
    }
  }

  /** The two ways agree exactly on strings whose only control characters are newlines. */
  lemma EscapesAgree(s: string)
    ensures ReplacedInTurn(s) == Escaped(s) <==> OnlyNewlines(s)
  {
    InTurnIsShorter(s);
    if OnlyNewlines(s) { SameEscapes(s); }
  }
}
