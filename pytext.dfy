/** The few Python string built-ins the console and the search code rely on:
    `str.strip()`, `str.lower()`, `str.endswith`, `int(str)` and `str(int)`. */
module PyText {
  import opened Outcomes

  /** Python's `str.isspace()` on one character: the code points CPython treats
      as whitespace, which are also what `str.strip()` removes. */
  predicate IsSpace(c: char) {
    var n := c as int;
    n == 0x20 || 0x09 <= n <= 0x0D || 0x1C <= n <= 0x1F || n == 0x85 || n == 0xA0
    || n == 0x1680 || 0x2000 <= n <= 0x200A || n == 0x2028 || n == 0x2029
    || n == 0x202F || n == 0x205F || n == 0x3000
  }

  predicate AllSpace(s: string) {
    forall i :: 0 <= i < |s| ==> IsSpace(s[i])
  }

  predicate IsDigit(c: char) {
    '0' <= c <= '9'
  }

  predicate AllDigits(s: string) {
    forall i :: 0 <= i < |s| ==> IsDigit(s[i])
  }

  /** `s.lstrip()`: the suffix left after removing leading whitespace. */
  function TrimStart(s: string): (r: string)
    ensures |r| <= |s|
    ensures forall i :: 0 <= i < |s| - |r| ==> IsSpace(s[i])
    ensures r != [] ==> !IsSpace(r[0])
  {
    if s != [] && IsSpace(s[0]) then TrimStart(s[1..]) else s
  }

  /** What `lstrip()` keeps is the tail of its input. */
  lemma {:induction false} TrimStartIsSuffix(s: string)
    ensures TrimStart(s) == s[|s| - |TrimStart(s)|..]
  {
    if s != [] && IsSpace(s[0]) {
      TrimStartIsSuffix(s[1..]);
      assert s[1..][|s| - 1 - |TrimStart(s)|..] == s[|s| - |TrimStart(s)|..];
    }
  }

  /** `s.rstrip()`: the prefix left after removing trailing whitespace. */
  function TrimEnd(s: string): (r: string)
    ensures |r| <= |s| && r == s[..|r|]
    ensures forall i :: |r| <= i < |s| ==> IsSpace(s[i])
    ensures r != [] ==> !IsSpace(r[|r| - 1])
  {
    if s != [] && IsSpace(s[|s| - 1]) then TrimEnd(s[..|s| - 1]) else s
  }

  /** `s.strip()`: a piece of `s` that neither starts nor ends with whitespace. */
  function Strip(s: string): (r: string)
    ensures |r| <= |s|
    ensures r == [] || (!IsSpace(r[0]) && !IsSpace(r[|r| - 1]))
  {
    var u := TrimStart(s);
    var r := TrimEnd(u);
    assert r != [] ==> r[0] == u[0];
    r
  }

  /** `strip()` only drops whitespace: every other character of the input is
      one of the result's, and the result has no character the input lacks. */
  lemma StripDropsOnlySpace(s: string)
    ensures forall c :: c in Strip(s) ==> c in s
    ensures forall i :: 0 <= i < |s| ==> IsSpace(s[i]) || s[i] in Strip(s)
  {
    var u := TrimStart(s);
    var r := TrimEnd(u);
    var k := |s| - |u|;
    TrimStartIsSuffix(s);
    forall c | c in r ensures c in s {
      var j :| 0 <= j < |r| && r[j] == c;
      assert s[k + j] == c;
    }
    forall i | 0 <= i < |s| && !IsSpace(s[i]) ensures s[i] in r {
      assert s[i] == u[i - k];
      assert r[i - k] == u[i - k];
    }
  }

  lemma {:induction false} TrimStartPadded(pre: string, u: string)
    requires AllSpace(pre)
    requires u == [] || !IsSpace(u[0])
    ensures TrimStart(pre + u) == u
  {
    if pre != [] {
      assert (pre + u)[1..] == pre[1..] + u;
      TrimStartPadded(pre[1..], u);
    }
  }

  lemma {:induction false} TrimEndPadded(u: string, post: string)
    requires AllSpace(post)
    requires u == [] || !IsSpace(u[|u| - 1])
    ensures TrimEnd(u + post) == u
  {
    if post != [] {
      assert (u + post)[..|u + post| - 1] == u + post[..|post| - 1];
      TrimEndPadded(u, post[..|post| - 1]);
    } else {
      assert u + post == u;
    }
  }

  /** Whitespace around a piece that has none at its ends is exactly what
      `strip()` removes. */
  lemma StripPadded(pre: string, t: string, post: string)
    requires AllSpace(pre) && AllSpace(post)
    requires t == [] || (!IsSpace(t[0]) && !IsSpace(t[|t| - 1]))
    ensures Strip(pre + t + post) == t
  {
    if t == [] {
      assert pre + t + post == (pre + post) + [];
      TrimStartPadded(pre + post, []);
    } else {
      assert pre + t + post == pre + (t + post);
      TrimStartPadded(pre, t + post);
      TrimEndPadded(t, post);
    }
  }

  function LowerChar(c: char): char {
    if 'A' <= c <= 'Z' then (c as int - 'A' as int + 'a' as int) as char else c
  }

  /** `s.lower()` on ASCII letters; every other character is kept. */
  function Lower(s: string): (r: string)
    ensures |r| == |s|
  {
    if s == [] then [] else [LowerChar(s[0])] + Lower(s[1..])
  }

  /** `lower()` works character by character. */
  lemma {:induction false} LowerAt(s: string)
    ensures forall i :: 0 <= i < |s| ==> Lower(s)[i] == LowerChar(s[i])
  {
    if s != [] {
      LowerAt(s[1..]);
      assert forall i :: 1 <= i < |s| ==> Lower(s)[i] == Lower(s[1..])[i - 1];
    }
  }

  /** Text without upper-case ASCII letters is its own lower case. */
  lemma LowerKeeps(s: string)
    requires forall i :: 0 <= i < |s| ==> !('A' <= s[i] <= 'Z')
    ensures Lower(s) == s
  {
    LowerAt(s);
    assert forall i :: 0 <= i < |s| ==> Lower(s)[i] == s[i];
  }

  function DigitValue(c: char): nat
    requires IsDigit(c)
  {
    c as int - '0' as int
  }

  function DigitChar(d: nat): (c: char)
    requires d < 10
    ensures IsDigit(c) && DigitValue(c) == d
  {
    ('0' as int + d) as char
  }

  /** The value of a string of decimal digits, most significant first. */
  function DecimalValue(ds: string): nat
    requires AllDigits(ds)
  {
    if ds == [] then 0 else 10 * DecimalValue(ds[..|ds| - 1]) + DigitValue(ds[|ds| - 1])
  }

  /** The body `int()` accepts after an optional sign: digits, where single
      underscores may separate two digits. */
  predicate IsDigitGroup(s: string) {
    && |s| > 0 && IsDigit(s[0]) && IsDigit(s[|s| - 1])
    && (forall i :: 0 <= i < |s| ==> IsDigit(s[i]) || s[i] == '_')
    && NoDoubleUnderscore(s)
  }

  predicate NoDoubleUnderscore(s: string) {
    |s| < 2 || ((s[0] != '_' || s[1] != '_') && NoDoubleUnderscore(s[1..]))
  }

  lemma {:induction false} DigitsHaveNoUnderscore(s: string)
    requires AllDigits(s)
    ensures NoDoubleUnderscore(s)
  {
    if |s| >= 2 {
      DigitsHaveNoUnderscore(s[1..]);
    }
  }

  function DropUnderscores(s: string): (r: string)
    ensures forall c :: c in r ==> c in s && c != '_'
    ensures AllDigits(s) ==> r == s
  {
    if s == [] then []
    else if s[0] == '_' then DropUnderscores(s[1..])
    else [s[0]] + DropUnderscores(s[1..])
  }

  function GroupValue(g: string): nat
    requires IsDigitGroup(g)
  {
    var ds := DropUnderscores(g);
    assert AllDigits(ds) by {
      forall i | 0 <= i < |ds| ensures IsDigit(ds[i]) {
        assert ds[i] in ds;
      }
    }
    DecimalValue(ds)
  }

  /** The four ASCII information separators U+001C..U+001F: `str.isspace()`
      and `str.strip()` count them as whitespace, but `int()` does not skip them
      (it skips only the ASCII blanks " \t\n\v\f\r" and non-ASCII Unicode
      whitespace), so any of them anywhere in the text makes `int()` fail. */
  predicate IsInfoSeparator(c: char) {
    0x1C <= c as int <= 0x1F
  }

  predicate NoInfoSeparator(s: string) {
    forall i :: 0 <= i < |s| ==> !IsInfoSeparator(s[i])
  }

  /** The whitespace `int()` skips around a number. */
  predicate IsIntSpace(c: char) {
    IsSpace(c) && !IsInfoSeparator(c)
  }

  predicate AllIntSpace(s: string) {
    forall i :: 0 <= i < |s| ==> IsIntSpace(s[i])
  }

  /** Python's `int(s)` in base 10: `None` where it raises `ValueError`.
      It accepts surrounding whitespace other than the information separators,
      one optional sign and underscores between digits; only ASCII digits are
      modelled. Without information separators the whitespace `int()` skips is
      exactly what `strip()` removes. */
  function ParseInt(s: string): (r: Option<int>)
  {
    if NoInfoSeparator(s) then ParseSigned(Strip(s)) else None
  }

  /** What `int()` accepts: text without information separators that, once its
      whitespace is removed, is a digit group, optionally after one sign. */
  lemma ParseIntAccepts(s: string)
    ensures var t := Strip(s);
            ParseInt(s).Some? <==>
              NoInfoSeparator(s)
              && (IsDigitGroup(t) || (|t| > 0 && (t[0] == '+' || t[0] == '-') && IsDigitGroup(t[1..])))
    ensures forall i :: 0 <= i < |s| && IsInfoSeparator(s[i]) ==> ParseInt(s).None?
  {
  }

  /** `int()` accepts only text made of digits, the whitespace it skips, signs
      and underscores, with at least one digit. */
  lemma ParseIntChars(s: string)
    requires ParseInt(s).Some?
    ensures exists c :: c in s && IsDigit(c)
    ensures forall i :: 0 <= i < |s| ==> IsIntChar(s[i])
  {
    var t := Strip(s);
    StripIntChars(s, t, if IsDigitGroup(t) then 0 else 1);
  }

  /** `int()` on text that is already stripped: an optional sign, then digits. */
  function ParseSigned(t: string): (r: Option<int>)
    ensures r.Some? <==> IsDigitGroup(t) || (|t| > 0 && (t[0] == '+' || t[0] == '-') && IsDigitGroup(t[1..]))
  {
    if t != [] && (t[0] == '+' || t[0] == '-') then
      if IsDigitGroup(t[1..]) then
        var v: int := GroupValue(t[1..]);
        Some(if t[0] == '-' then -v else v)
      else
        None
    else if IsDigitGroup(t) then
      Some(GroupValue(t))
    else
      None
  }

  /** If what `strip()` kept is a sign (at most) and a digit group, every
      character of the input is one `int()` may see, and one is a digit. */
  lemma StripIntChars(s: string, t: string, signs: nat)
    requires t == Strip(s) && signs <= 1 && signs <= |t| && NoInfoSeparator(s)
    requires forall i :: 0 <= i < signs ==> t[i] == '+' || t[i] == '-'
    requires IsDigitGroup(t[signs..])
    ensures exists c :: c in s && IsDigit(c)
    ensures forall i :: 0 <= i < |s| ==> IsIntChar(s[i])
  {
    var g := t[signs..];
    StripDropsOnlySpace(s);
    assert forall j :: 0 <= j < |t| ==> IsIntChar(t[j]) by {
      forall j | 0 <= j < |t| ensures IsIntChar(t[j]) {
        if j >= signs { assert t[j] == g[j - signs]; }
      }
    }
    forall i | 0 <= i < |s| ensures IsIntChar(s[i]) {
      if !IsSpace(s[i]) {
        assert s[i] in t;
        var j :| 0 <= j < |t| && t[j] == s[i];
        assert IsIntChar(t[j]);
      }
    }
    assert g[0] == t[signs];
    assert t[signs] in s;
  }

  /** The characters `int()` may see: digits, the whitespace it skips, sign
      and underscore. */
  predicate IsIntChar(c: char) {
    IsDigit(c) || IsIntSpace(c) || c == '_' || c == '+' || c == '-'
  }

  /** Python's `str(n)` for a non-negative integer: no leading zeros. */
  function NatToString(n: nat): (r: string)
    ensures |r| > 0 && AllDigits(r) && DecimalValue(r) == n
    ensures |r| > 1 ==> r[0] != '0'
  {
    if n < 10 then [DigitChar(n)]
    else
      var p := NatToString(n / 10);
      var r := p + [DigitChar(n % 10)];
      assert r[..|r| - 1] == p;
      r
  }

  /** Python's `str(n)` for any integer. */
  function IntToString(n: int): (r: string)
    ensures |r| > 0
    ensures n < 0 <==> r[0] == '-'
  {
    if n < 0 then "-" + NatToString(-n) else NatToString(n)
  }

  /** `int()` reads back what `str()` writes. */
  lemma ParseIntToString(n: int)
    ensures ParseInt(IntToString(n)) == Some(n)
  {
    var s := IntToString(n);
    IntToStringNoSeparator(n);
    ParseSignedToString(n);
    ParseIntUnpadded(s);
  }

  lemma {:induction false} ParseSignedToString(n: int)
    ensures var s := IntToString(n);
            && ParseSigned(s) == Some(n)
            && !IsSpace(s[0]) && !IsSpace(s[|s| - 1])
  {
    var m: nat := if n < 0 then -n else n;
    var ds := NatToString(m);
    DigitsHaveNoUnderscore(ds);
    assert IsDigitGroup(ds);
    assert GroupValue(ds) == m by {
      assert DropUnderscores(ds) == ds;
    }
    var s := IntToString(n);
    assert IsDigit(ds[|ds| - 1]);
    if n < 0 {
      assert s[0] == '-' && s[1..] == ds;
      assert s[|s| - 1] == ds[|ds| - 1];
    } else {
      assert s == ds && IsDigit(s[0]);
    }
  }

  /** Without information separators and without whitespace at its ends, the
      text is what `int()` reads. */
  lemma ParseIntUnpadded(s: string)
    requires NoInfoSeparator(s)
    requires s == [] || (!IsSpace(s[0]) && !IsSpace(s[|s| - 1]))
    ensures ParseInt(s) == ParseSigned(s)
  {
    StripUnpadded(s);
  }

  /** `str(n)` holds only digits and a minus sign. */
  lemma IntToStringNoSeparator(n: int)
    ensures NoInfoSeparator(IntToString(n))
  {
    var s := IntToString(n);
    if n < 0 {
      var ds := NatToString(-n);
      assert forall i :: 1 <= i < |s| ==> s[i] == ds[i - 1];
    }
  }

  lemma StripUnpadded(s: string)
    requires s == [] || (!IsSpace(s[0]) && !IsSpace(s[|s| - 1]))
    ensures Strip(s) == s
  {
    StripPadded([], s, []);
    assert [] + s + [] == s;
  }

  /** A run of ASCII digits reads as its decimal value. */
  lemma ParseIntDigits(ds: string)
    requires |ds| > 0 && AllDigits(ds)
    ensures ParseInt(ds).Some? && ParseInt(ds).value == DecimalValue(ds)
  {
    assert IsDigit(ds[0]) && IsDigit(ds[|ds| - 1]);
    StripUnpadded(ds);
    ParseSignedDigits(ds);
  }

  /** A run of ASCII digits followed by whitespace reads as its decimal value. */
  lemma ParseIntTrailingSpace(ds: string, post: string)
    requires AllIntSpace(post)
    requires |ds| > 0 && AllDigits(ds)
    ensures ParseInt(ds + post).Some? && ParseInt(ds + post).value == DecimalValue(ds)
  {
    var s := ds + post;
    assert NoInfoSeparator(s) by {
      forall i | 0 <= i < |s| ensures !IsInfoSeparator(s[i]) {
        if i < |ds| { assert s[i] == ds[i]; } else { assert s[i] == post[i - |ds|]; }
      }
    }
    assert s[0] == ds[0];
    assert TrimStart(s) == s;
    TrimEndPadded(ds, post);
    ParseSignedDigits(ds);
  }

  /** A run of ASCII digits with whitespace around it reads as its decimal value. */
  lemma ParseIntPaddedDigits(pre: string, ds: string, post: string)
    requires AllIntSpace(pre) && AllIntSpace(post)
    requires |ds| > 0 && AllDigits(ds)
    ensures ParseInt(pre + ds + post).Some?
    ensures ParseInt(pre + ds + post).value == DecimalValue(ds)
  {
    PaddedHasNoSeparator(pre, ds, post);
    StripPadded(pre, ds, post);
    ParseSignedDigits(ds);
  }

  lemma PaddedHasNoSeparator(pre: string, ds: string, post: string)
    requires AllIntSpace(pre) && AllIntSpace(post) && AllDigits(ds)
    ensures AllSpace(pre) && AllSpace(post)
    ensures NoInfoSeparator(pre + ds + post)
  {
    var s := pre + ds + post;
    forall i | 0 <= i < |s| ensures !IsInfoSeparator(s[i]) {
      if i < |pre| {
        assert s[i] == pre[i];
      } else if i < |pre| + |ds| {
        assert s[i] == ds[i - |pre|];
      } else {
        assert s[i] == post[i - |pre| - |ds|];
      }
    }
  }

  /** A single character that is neither a digit nor whitespace is not a
      number. */
  lemma ParseIntLoneChar(c: char)
    requires !IsDigit(c) && !IsSpace(c)
    ensures ParseInt([c]).None?
  {
    StripUnpadded([c]);
    ParseSignedLoneChar(c);
  }

  lemma ParseSignedLoneChar(c: char)
    requires !IsDigit(c)
    ensures ParseSigned([c]).None?
  {
  }

  lemma ParseSignedDigits(ds: string)
    requires |ds| > 0 && AllDigits(ds)
    ensures ParseSigned(ds).Some? && ParseSigned(ds).value == DecimalValue(ds)
  {
    DigitsHaveNoUnderscore(ds);
    assert IsDigitGroup(ds) && IsDigit(ds[0]);
    assert DropUnderscores(ds) == ds;
  }
}
