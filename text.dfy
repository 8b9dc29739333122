/** The pieces of Python's string handling the backend relies on:
    str.strip(), str.lower() on the letters that matter, str(int),
    int(str) in base 10 for ASCII digits, and the last field of str.split(sep). */
module Text {
  import opened Common

  /** Python's str.isspace(): the characters strip() removes. */
  predicate IsSpace(c: char) {
    || c == ' '
    || ('\t' <= c <= '\r')
    || ('\U{1c}' <= c <= '\U{1f}')
    || c == '\U{85}' || c == '\U{a0}' || c == '\U{1680}'
    || ('\U{2000}' <= c <= '\U{200a}')
    || c == '\U{2028}' || c == '\U{2029}' || c == '\U{202f}' || c == '\U{205f}' || c == '\U{3000}'
  }

  predicate NoSpace(s: string) {
    forall i :: 0 <= i < |s| ==> !IsSpace(s[i])
  }

  /** Drops leading whitespace: what remains is a suffix that does not start with a space. */
  function TrimStart(s: string): (r: string)
    ensures |r| <= |s| && r == s[|s| - |r|..]
    ensures forall i :: 0 <= i < |s| - |r| ==> IsSpace(s[i])
    ensures r != [] ==> !IsSpace(r[0])
  {
    if s != [] && IsSpace(s[0]) then TrimStart(s[1..]) else s
  }

  /** Drops trailing whitespace: what remains is a prefix that does not end with a space. */
  function TrimEnd(s: string): (r: string)
    ensures |r| <= |s| && r == s[..|r|]
    ensures forall i :: |r| <= i < |s| ==> IsSpace(s[i])
    ensures r != [] ==> !IsSpace(r[|r| - 1])
  {
    if s != [] && IsSpace(s[|s| - 1]) then TrimEnd(s[..|s| - 1]) else s
  }

  /** r is s[a..b], and everything of s outside [a, b) is whitespace. */
  predicate CutFrom(s: string, r: string, a: int, b: int) {
    && 0 <= a <= b <= |s| && r == s[a..b]
    && (forall i :: 0 <= i < a ==> IsSpace(s[i])) && (forall i :: b <= i < |s| ==> IsSpace(s[i]))
  }

  /** Python's str.strip() with no argument: the input with its leading and
      trailing whitespace cut off, and nothing else (StripIsCut). */
  function Strip(s: string): (r: string)
    ensures |r| <= |s|
    ensures r != [] ==> !IsSpace(r[0]) && !IsSpace(r[|r| - 1])
    ensures NoSpace(s) ==> r == s
  {
    var t := TrimStart(s);
    var r := TrimEnd(t);
    StripParts(s, t, r);
    r
  }

  /** What strip() answers is a cut of the input between two whitespace runs. */
  lemma StripIsCut(s: string)
    ensures exists a, b :: CutFrom(s, Strip(s), a, b)
  {
    var t := TrimStart(s);
    var r := TrimEnd(t);
    assert Strip(s) == r;
    StripParts(s, t, r);
    assert CutFrom(s, r, |s| - |t|, |s| - |t| + |r|);
  }

  /** Strip's halves: the kept text sits between the two whitespace runs. */
  lemma StripParts(s: string, t: string, r: string)
    requires |t| <= |s| && t == s[|s| - |t|..] && forall i :: 0 <= i < |s| - |t| ==> IsSpace(s[i])
    requires t != [] ==> !IsSpace(t[0])
    requires |r| <= |t| && r == t[..|r|] && forall i :: |r| <= i < |t| ==> IsSpace(t[i])
    requires r != [] ==> !IsSpace(r[|r| - 1])
    ensures r != [] ==> !IsSpace(r[0]) && !IsSpace(r[|r| - 1])
    ensures NoSpace(s) ==> r == s
    ensures CutFrom(s, r, |s| - |t|, |s| - |t| + |r|)
  {
    assert r != [] ==> r[0] == t[0];
    var a := |s| - |t|;
    assert r == s[a..a + |r|];
    TrailingSpace(s, t, r, a);
    if a > 0 {
      assert IsSpace(s[0]);
    }
    if |r| < |t| {
      assert IsSpace(s[a + |r|]);
    }
  }

  lemma TrailingSpace(s: string, t: string, r: string, a: int)
    requires 0 <= a <= |s| && t == s[a..] && |r| <= |t|
    requires forall i :: |r| <= i < |t| ==> IsSpace(t[i])
    ensures forall i :: a + |r| <= i < |s| ==> IsSpace(s[i])
  {
    forall i | a + |r| <= i < |s|
      ensures IsSpace(s[i])
    {
      assert s[i] == t[i - a];
    }
  }

  function LowerChar(c: char): char {
    if 'A' <= c <= 'Z' then (c as int + 32) as char else c
  }

  /** str.lower() restricted to ASCII letters. For the membership tests
      below this is exact: no other character lowers to one of the ASCII
      letters of "1", "true", "yes" or "on". */
  function Lower(s: string): (r: string)
    ensures |r| == |s| && forall i :: 0 <= i < |s| ==> r[i] == LowerChar(s[i])
  {
    seq(|s|, i requires 0 <= i < |s| => LowerChar(s[i]))
  }

  const TruthyWords: set<string> := {"1", "true", "yes", "on"}

  /** `value.strip().lower() in {"1", "true", "yes", "on"}`, shared by both
      `_to_bool` helpers of the backend. */
  predicate IsTruthyText(s: string) {
    Lower(Strip(s)) in TruthyWords
  }

  /** The word the serialiser writes for true reads back as true. */
  lemma SerializedTrueIsTruthy()
    ensures IsTruthyText("true")
  {
    assert NoSpace("true");
    assert Strip("true") == "true";
    assert Lower("true") == "true";
  }

  /** A cut between whitespace runs that starts and ends on non-space
      characters is the stripped text. */
  lemma StripOfCut(s: string, a: int, b: int)
    requires 0 <= a < b <= |s| && !IsSpace(s[a]) && !IsSpace(s[b - 1])
    requires forall i :: 0 <= i < a ==> IsSpace(s[i])
    requires forall i :: b <= i < |s| ==> IsSpace(s[i])
    ensures Strip(s) == s[a..b]
  {
    var r := Strip(s);
    StripIsCut(s);
    var a', b' :| CutFrom(s, r, a', b');
    CutsAgree(s, r, a, b, a', b');
  }

  /** Two cuts between whitespace runs, one of them starting and ending on
      non-space characters, are the same cut. */
  lemma CutsAgree(s: string, r: string, a: int, b: int, a': int, b': int)
    requires 0 <= a < b <= |s| && !IsSpace(s[a]) && !IsSpace(s[b - 1])
    requires forall i :: 0 <= i < a ==> IsSpace(s[i])
    requires forall i :: b <= i < |s| ==> IsSpace(s[i])
    requires CutFrom(s, r, a', b')
    requires r != [] ==> !IsSpace(r[0]) && !IsSpace(r[|r| - 1])
    ensures a' == a && b' == b
  {
    if a' <= a && b' >= b {
      assert r[0] == s[a'] && r[|r| - 1] == s[b' - 1];
    }
  }

  /** Surrounding whitespace does not matter, and a word is truthy exactly
      when its lower-cased spelling is one of the truthy words. */
  lemma TruthyTextPadded(pre: string, w: string, post: string)
    requires w != [] && !IsSpace(w[0]) && !IsSpace(w[|w| - 1])
    requires forall i :: 0 <= i < |pre| ==> IsSpace(pre[i])
    requires forall i :: 0 <= i < |post| ==> IsSpace(post[i])
    ensures Strip(pre + w + post) == w
    ensures IsTruthyText(pre + w + post) <==> Lower(w) in TruthyWords
  {
    var s := pre + w + post;
    var a, b := |pre|, |pre| + |w|;
    assert s[a] == w[0] && s[b - 1] == w[|w| - 1];
    assert forall i :: 0 <= i < a ==> s[i] == pre[i];
    assert forall i :: b <= i < |s| ==> s[i] == post[i - b];
    StripOfCut(s, a, b);
    assert s[a..b] == w;
  }

  /** The word the serialiser writes for false reads back as false. */
  lemma SerializedFalseIsNotTruthy()
    ensures !IsTruthyText("false")
  {
    assert NoSpace("false");
    assert Strip("false") == "false";
    assert Lower("false") == "false";
  }

  predicate IsDigit(c: char) { '0' <= c <= '9' }

  predicate AllDigits(s: string) {
    forall i :: 0 <= i < |s| ==> IsDigit(s[i])
  }

  function DigitChar(d: nat): (c: char)
    requires d < 10
    ensures IsDigit(c)
  {
    ('0' as int + d) as char
  }

  function DigitValue(c: char): nat
    requires IsDigit(c)
  {
    c as int - '0' as int
  }

  /** Python's str() of a non-negative int: decimal digits, no leading zero. */
  function NatToString(n: nat): (r: string)
    ensures |r| > 0 && AllDigits(r)
    ensures |r| > 1 ==> r[0] != '0'
    decreases n
  {
    if n < 10 then [DigitChar(n)] else NatToString(n / 10) + [DigitChar(n % 10)]
  }

  /** Python's str() of an int. */
  function IntToString(i: int): (r: string)
    ensures r != [] && NoSpace(r)
    ensures i < 0 <==> r[0] == '-'
  {
    if i < 0 then "-" + NatToString(-i) else NatToString(i)
  }

  /** The value of a run of decimal digits, most significant first. */
  function DigitsValue(s: string): nat
    requires AllDigits(s)
  {
    if s == [] then 0 else DigitsValue(s[..|s| - 1]) * 10 + DigitValue(s[|s| - 1])
  }

  /** The digits of a base-10 literal as int() reads it: ASCII digits with
      single underscores between them (`digit (["_"] digit)*`). */
  predicate DecimalLiteral(d: string) {
    && d != [] && IsDigit(d[0]) && IsDigit(d[|d| - 1])
    && (forall i :: 0 <= i < |d| ==> IsDigit(d[i]) || d[i] == '_')
    && (forall i :: 0 <= i < |d| - 1 ==> d[i] == '_' ==> d[i + 1] != '_')
  }

  /** An optional sign followed by a decimal literal. */
  predicate IntLiteral(t: string) {
    if t != [] && (t[0] == '-' || t[0] == '+') then DecimalLiteral(t[1..]) else DecimalLiteral(t)
  }

  /** The digits of s, underscores dropped. */
  function Digits(s: string): (r: string)
    requires forall i :: 0 <= i < |s| ==> IsDigit(s[i]) || s[i] == '_'
    ensures AllDigits(r) && |r| <= |s|
  {
    if s == [] then []
    else if s[|s| - 1] == '_' then Digits(s[..|s| - 1])
    else Digits(s[..|s| - 1]) + [s[|s| - 1]]
  }

  /** A run of digits is its own digit string. */
  lemma {:induction false} DigitsOfDigits(s: string)
    requires AllDigits(s)
    ensures Digits(s) == s
  {
    if s != [] {
      DigitsOfDigits(s[..|s| - 1]);
    }
  }

  /** Python's int(s) in base 10: surrounding whitespace, an optional sign
      and a decimal literal whose underscores are only separators; anything
      else raises ValueError (None). The value is that of the digits, negated
      after a '-'. */
  function ParseInt(s: string): (r: Option<int>)
    ensures r.Some? <==> IntLiteral(Strip(s))
    ensures r.Some? ==>
      var t := Strip(s);
      var negative := t[0] == '-';
      var d := if t[0] == '-' || t[0] == '+' then t[1..] else t;
      r.value == (if negative then -(DigitsValue(Digits(d)) as int) else DigitsValue(Digits(d)))
  {
    var t := Strip(s);
    if t != [] && (t[0] == '-' || t[0] == '+') then
      var d := t[1..];
      if DecimalLiteral(d) then
        var v: int := if t[0] == '-' then -(DigitsValue(Digits(d)) as int) else DigitsValue(Digits(d));
        Some(v)
      else None
    else if DecimalLiteral(t) then Some(DigitsValue(Digits(t)))
    else None
  }

  /** Underscores group digits without changing the value. */
  lemma GroupedDigits()
    ensures ParseInt("1_000") == Some(1000)
  {
    assert NoSpace("1_000");
    assert DecimalLiteral("1_000");
    assert Digits("1_000") == "1000" by {
      assert "1_000"[..4] == "1_00";
      assert "1_00"[..3] == "1_0";
      assert "1_0"[..2] == "1_";
      assert "1_"[..1] == "1";
    }
    ThousandValue();
  }

  lemma ThousandValue()
    ensures DigitsValue("1000") == 1000
  {
    assert "1000"[..3] == "100";
    assert "100"[..2] == "10";
    assert "10"[..1] == "1";
  }

  /** A doubled, leading or trailing underscore is refused. */
  lemma MisplacedUnderscores()
    ensures ParseInt("1__0").None? && ParseInt("_1").None? && ParseInt("1_").None?
  {
    DoubledUnderscore();
    LeadingUnderscore();
    TrailingUnderscore();
  }

  lemma DoubledUnderscore()
    ensures ParseInt("1__0").None?
  {
    assert Strip("1__0") == "1__0" by { assert NoSpace("1__0"); }
    assert !DecimalLiteral("1__0") by { assert "1__0"[1] == '_' && "1__0"[2] == '_'; }
  }

  lemma LeadingUnderscore()
    ensures ParseInt("_1").None?
  {
    assert Strip("_1") == "_1" by { assert NoSpace("_1"); }
  }

  lemma TrailingUnderscore()
    ensures ParseInt("1_").None?
  {
    assert Strip("1_") == "1_" by { assert NoSpace("1_"); }
  }

  lemma {:induction false} DigitsRoundTrip(n: nat)
    ensures DigitsValue(NatToString(n)) == n
  {
    if n >= 10 {
      var s := NatToString(n);
      assert s[..|s| - 1] == NatToString(n / 10);
      DigitsRoundTrip(n / 10);
    }
  }

  /** A run of digits is a decimal literal. */
  lemma DigitsAreLiteral(d: string)
    requires d != [] && AllDigits(d)
    ensures DecimalLiteral(d)
  {
  }

  /** int(str(i)) == i. */
  lemma {:induction false} ParseIntRoundTrip(i: int)
    ensures ParseInt(IntToString(i)) == Some(i)
  {
    var s := IntToString(i);
    assert Strip(s) == s;
    var n: nat := if i < 0 then -i else i;
    var d := NatToString(n);
    DigitsAreLiteral(d);
    DigitsOfDigits(d);
    DigitsRoundTrip(n);
    if i < 0 {
      assert s[1..] == d;
      assert IntLiteral(s);
    } else {
      assert s == d && s[0] != '-' && s[0] != '+';
    }
  }

  /** Distinct numbers print differently. */
  lemma NatToStringInjective(m: nat, n: nat)
    requires NatToString(m) == NatToString(n)
    ensures m == n
  {
    DigitsRoundTrip(m);
    DigitsRoundTrip(n);
  }

  /** The last element of Python's s.split(sep): everything after the last
      separator, or all of s when there is none. */
  function AfterLast(s: string, sep: char): (r: string)
    ensures |r| <= |s| && r == s[|s| - |r|..]
    ensures sep !in r
    ensures |r| < |s| ==> s[|s| - |r| - 1] == sep
  {
    if s == [] then []
    else if s[|s| - 1] == sep then []
    else AfterLast(s[..|s| - 1], sep) + [s[|s| - 1]]
  }

  /** A suffix free of the separator is exactly the last split field. */
  lemma {:induction false} AfterLastOfSuffix(p: string, sep: char, tail: string)
    requires sep !in tail
    ensures AfterLast(p + [sep] + tail, sep) == tail
    decreases |tail|
  {
    var s := p + [sep] + tail;
    if tail == [] {
    } else {
      assert s[..|s| - 1] == p + [sep] + tail[..|tail| - 1];
      AfterLastOfSuffix(p, sep, tail[..|tail| - 1]);
    }
  }

  /** Code-point lexicographic order on strings, the order of
      PostgreSQL's "C" collation. */
  predicate StrLe(a: string, b: string)
    decreases |a|
  {
    a == [] || (b != [] && (a[0] < b[0] || (a[0] == b[0] && StrLe(a[1..], b[1..]))))
  }

  lemma {:induction false} StrLeTotal(a: string, b: string)
    ensures StrLe(a, b) || StrLe(b, a)
    decreases |a|
  {
    if a != [] && b != [] && a[0] == b[0] {
      StrLeTotal(a[1..], b[1..]);
    }
  }

  lemma {:induction false} StrLeTransitive(a: string, b: string, c: string)
    requires StrLe(a, b) && StrLe(b, c)
    ensures StrLe(a, c)
    decreases |a|
  {
    if a != [] && a[0] == b[0] && b[0] == c[0] {
      StrLeTransitive(a[1..], b[1..], c[1..]);
    }
  }

  /** Python's float text: str(x), float(s) (None where it raises) and the
      "{:.1f}" format. None of them is interpreted here. */
  datatype FloatText = FloatText(
    show: real -> string,
    parse: string -> Option<real>,
    fixed1: real -> string)
}
