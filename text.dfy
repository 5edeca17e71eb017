/** The Python string builtins the scripts rely on: `str.strip()`, `str.startswith`,
    `str.lower()`, `str(n)` for a natural number, `int(s)`, and `os.path.join` for two
    components. */
module Text {

  import opened Wrappers

  /** Python's `str.isspace` for a single character: the characters `str.strip()` removes. */
  predicate IsSpace(c: char): (b: bool)
    ensures b ==> !('0' <= c <= '9') && c != '#' && c != '-' && c != '+'
  {
    ('\t' <= c <= '\r') || ('\U{1C}' <= c <= '\U{1F}') || c == ' ' || c == '\U{85}' ||
    c == '\U{A0}' || c == '\U{1680}' || ('\U{2000}' <= c <= '\U{200A}') ||
    c == '\U{2028}' || c == '\U{2029}' || c == '\U{202F}' || c == '\U{205F}' || c == '\U{3000}'
  }

  predicate AllSpace(s: string)
  {
    forall k :: 0 <= k < |s| ==> IsSpace(s[k])
  }

  /** `s.strip()`: whitespace removed from both ends. */
  function Strip(s: string): (r: string)
    ensures |r| <= |s|
    ensures r == [] || (!IsSpace(r[0]) && !IsSpace(r[|r| - 1]))
  {
    if |s| > 0 && IsSpace(s[0]) then Strip(s[1..])
    else if |s| > 0 && IsSpace(s[|s| - 1]) then Strip(s[..|s| - 1])
    else s
  }

  /** `r` is the slice of `s` from `i` on, with nothing but whitespace around it. */
  ghost predicate SliceWithin(s: string, i: nat, r: string)
  {
    i + |r| <= |s| && r == s[i..i + |r|] && AllSpace(s[..i]) && AllSpace(s[i + |r|..])
  }

  /** Dropping a leading whitespace character moves the slice one place right. */
  lemma SliceAfterHead(s: string, i: nat, r: string)
    requires |s| > 0 && IsSpace(s[0]) && SliceWithin(s[1..], i, r)
    ensures SliceWithin(s, i + 1, r)
  {
    var t := s[1..];
    assert r == s[i + 1..i + 1 + |r|];
    var pre := s[..i + 1];
    forall k | 0 <= k < |pre| ensures IsSpace(pre[k]) {
      if k > 0 { assert pre[k] == t[..i][k - 1]; }
    }
    assert s[i + 1 + |r|..] == t[i + |r|..];
  }

  /** Dropping a trailing whitespace character leaves the slice where it is. */
  lemma SliceBeforeLast(s: string, i: nat, r: string)
    requires |s| > 0 && IsSpace(s[|s| - 1]) && SliceWithin(s[..|s| - 1], i, r)
    ensures SliceWithin(s, i, r)
  {
    var t := s[..|s| - 1];
    assert r == s[i..i + |r|];
    assert s[..i] == t[..i];
    var post := s[i + |r|..];
    forall k | 0 <= k < |post| ensures IsSpace(post[k]) {
      if k < |post| - 1 { assert post[k] == t[i + |r|..][k]; }
    }
  }

  /** What `Strip` keeps is a slice of its input, and all it drops is whitespace. */
  lemma {:induction false} StripIsSlice(s: string) returns (i: nat)
    ensures SliceWithin(s, i, Strip(s))
  {
    if |s| > 0 && IsSpace(s[0]) {
      i := StripIsSlice(s[1..]);
      SliceAfterHead(s, i, Strip(s));
      i := i + 1;
    } else if |s| > 0 && IsSpace(s[|s| - 1]) {
      i := StripIsSlice(s[..|s| - 1]);
      SliceBeforeLast(s, i, Strip(s));
    } else {
      i := 0;
      assert s[..0] == [] && s[|s|..] == [] && s[0..|s|] == s;
    }
  }

  /** A line strips to nothing exactly when every character of it is whitespace. */
  lemma StripEmptyIff(s: string)
    ensures Strip(s) == [] <==> AllSpace(s)
  {
    var r := Strip(s);
    var i := StripIsSlice(s);
    if r == [] {
      forall k | 0 <= k < |s| ensures IsSpace(s[k]) {
        if k < i { assert s[..i][k] == s[k]; } else { assert s[i..][k - i] == s[k]; }
      }
    } else {
      assert s[i] == r[0];
    }
  }

  /** A string without whitespace at either end is left as it is. */
  lemma StripUnchanged(s: string)
    requires s == [] || (!IsSpace(s[0]) && !IsSpace(s[|s| - 1]))
    ensures Strip(s) == s
  {
  }

  /** Stripping twice is stripping once. */
  lemma StripIdempotent(s: string)
    ensures Strip(Strip(s)) == Strip(s)
  {
    StripUnchanged(Strip(s));
  }

  /** A slice with non-space ends, surrounded by nothing but whitespace, of a word padded
      with whitespace is the word itself. */
  lemma SliceOfPadded(w1: string, a: string, w2: string, i: nat, r: string)
    requires AllSpace(w1) && AllSpace(w2)
    requires a != [] && !IsSpace(a[0]) && !IsSpace(a[|a| - 1])
    requires r != [] && !IsSpace(r[0]) && !IsSpace(r[|r| - 1])
    requires SliceWithin(w1 + a + w2, i, r)
    ensures r == a
  {
    var s := w1 + a + w2;
    var j, e := |w1| + |a|, i + |r|;
    assert s[|w1|] == a[0] && s[j - 1] == a[|a| - 1];
    assert s[i] == r[0] && s[e - 1] == r[|r| - 1];
    assert forall k :: 0 <= k < i ==> IsSpace(s[k]) by {
      forall k | 0 <= k < i ensures IsSpace(s[k]) { assert s[..i][k] == s[k]; }
    }
    assert forall k :: e <= k < |s| ==> IsSpace(s[k]) by {
      forall k | e <= k < |s| ensures IsSpace(s[k]) { assert s[e..][k - e] == s[k]; }
    }
    assert forall k :: 0 <= k < |w1| ==> s[k] == w1[k];
    assert forall k :: j <= k < |s| ==> s[k] == w2[k - j];
    assert i == |w1| && e == j;
    assert s[|w1|..j] == a;
  }

  /** Whitespace put around a word is exactly what `strip()` takes away again. */
  lemma StripPadded(w1: string, a: string, w2: string)
    requires AllSpace(w1) && AllSpace(w2)
    requires a != [] && !IsSpace(a[0]) && !IsSpace(a[|a| - 1])
    ensures Strip(w1 + a + w2) == a
  {
    var s := w1 + a + w2;
    var i := StripIsSlice(s);
    assert s[|w1|] == a[0];
    StripEmptyIff(s);
    SliceOfPadded(w1, a, w2, i, Strip(s));
  }

  /** `s.startswith(p)`. */
  predicate StartsWith(s: string, p: string): (b: bool)
    ensures b <==> |p| <= |s| && forall k :: 0 <= k < |p| ==> s[k] == p[k]
  {
    |p| <= |s| && s[..|p|] == p
  }

  /** Python's `str.lower()` on one character, for the Latin and basic Cyrillic capitals;
      every other character is left as it is. */
  function LowerChar(c: char): (d: char)
    ensures 'A' <= c <= 'Z' ==> 'a' <= d <= 'z'
    ensures '\U{400}' <= c <= '\U{42F}' ==> '\U{430}' <= d <= '\U{45F}'
    ensures d != c ==> 'A' <= c <= 'Z' || '\U{400}' <= c <= '\U{42F}'
  {
    if 'A' <= c <= 'Z' then (c as int + 32) as char
    else if '\U{410}' <= c <= '\U{42F}' then (c as int + 32) as char
    else if '\U{400}' <= c <= '\U{40F}' then (c as int + 80) as char
    else c
  }

  function Lower(s: string): (r: string)
    ensures |r| == |s| && forall k :: 0 <= k < |s| ==> r[k] == LowerChar(s[k])
  {
    if s == [] then [] else [LowerChar(s[0])] + Lower(s[1..])
  }

  predicate IsDigit(c: char)
  {
    '0' <= c <= '9'
  }

  predicate AllDigits(s: string)
  {
    forall k :: 0 <= k < |s| ==> IsDigit(s[k])
  }

  function DigitChar(d: nat): (c: char)
    requires d < 10
    ensures IsDigit(c) && DigitValue(c) == d
  {
    ('0' as int + d) as char
  }

  function DigitValue(c: char): (d: nat)
    requires IsDigit(c)
    ensures d < 10
  {
    c as int - '0' as int
  }

  /** `str(n)` for a natural number: its shortest decimal numeral. */
  function Decimal(n: nat): (r: string)
    ensures |r| > 0 && AllDigits(r)
    ensures |r| > 1 ==> r[0] != '0'
  {
    if n < 10 then [DigitChar(n)] else Decimal(n / 10) + [DigitChar(n % 10)]
  }

  /** The number a string of decimal digits denotes (leading zeros allowed). */
  function DigitsValue(s: string): (n: nat)
    requires AllDigits(s)
  {
    if s == [] then 0 else DigitsValue(s[..|s| - 1]) * 10 + DigitValue(s[|s| - 1])
  }

  /** Reading back the numeral `str(n)` gives `n`. */
  lemma {:induction false} DecimalValue(n: nat)
    ensures DigitsValue(Decimal(n)) == n
  {
    if n >= 10 {
      var d := Decimal(n);
      assert d[..|d| - 1] == Decimal(n / 10);
      DecimalValue(n / 10);
    }
  }

  /** Distinct numbers have distinct numerals. */
  lemma DecimalInjective(m: nat, n: nat)
    requires Decimal(m) == Decimal(n)
    ensures m == n
  {
    DecimalValue(m);
    DecimalValue(n);
  }

  /** The digit part of an integer literal accepted by `int()`: digits, with single
      underscores allowed between two digits. */
  predicate IsDigitGroup(s: string)
  {
    |s| > 0 && IsDigit(s[0]) && IsDigit(s[|s| - 1]) &&
    (forall k :: 0 <= k < |s| ==> IsDigit(s[k]) || s[k] == '_') &&
    (forall k :: 0 <= k < |s| - 1 ==> !(s[k] == '_' && s[k + 1] == '_'))
  }

  function DropUnderscores(s: string): (r: string)
    requires forall k :: 0 <= k < |s| ==> IsDigit(s[k]) || s[k] == '_'
    ensures AllDigits(r)
    ensures AllDigits(s) ==> r == s
  {
    if s == [] then []
    else if s[0] == '_' then DropUnderscores(s[1..])
    else [s[0]] + DropUnderscores(s[1..])
  }

  /** The default of `sys.get_int_max_str_digits()`: `int()` refuses a decimal literal
      with more digits than this, leading zeros included and underscores not. */
  const MaxStrDigits: nat := 4300

  /** The value of an unsigned integer literal, if `body` is one `int()` accepts. */
  function Magnitude(body: string): (r: Option<nat>)
  {
    if IsDigitGroup(body) && |DropUnderscores(body)| <= MaxStrDigits then
      Some(DigitsValue(DropUnderscores(body)))
    else None
  }

  /** A magnitude with a sign applied. */
  function Signed(negative: bool, m: Option<nat>): (r: Option<int>)
  {
    match m
    case None => None
    case Some(v) => if negative then Some(-(v as int)) else Some(v as int)
  }

  /** The literal `int()` reads once whitespace is gone: an optional sign, then a digit group. */
  function ParseSigned(t: string): (r: Option<int>)
  {
    if t == [] then None
    else if t[0] == '-' || t[0] == '+' then Signed(t[0] == '-', Magnitude(t[1..]))
    else Signed(false, Magnitude(t))
  }

  /** `int(s)` on a string: surrounding whitespace, an optional sign, then a digit group;
      `None` where Python raises `ValueError`. The whitespace dropped is that of
      `str.strip`, which also takes the separators U+001C to U+001F that `int()` itself
      refuses; on a string already stripped the two agree. */
  function ParseInt(s: string): (r: Option<int>)
    ensures AllSpace(s) ==> r.None?
  {
    StripEmptyIff(s);
    ParseSigned(Strip(s))
  }

  /** A non-empty run of plain digits is an unsigned literal worth the number it denotes. */
  lemma MagnitudeOfDigits(d: string)
    requires |d| > 0 && AllDigits(d) && |d| <= MaxStrDigits
    ensures Magnitude(d) == Some(DigitsValue(d))
  {
    assert IsDigit(d[0]) && IsDigit(d[|d| - 1]);
    assert IsDigitGroup(d);
    assert DropUnderscores(d) == d;
  }

  /** A run of digits has nothing to strip. */
  lemma StripDigits(d: string)
    requires |d| > 0 && AllDigits(d)
    ensures Strip(d) == d
  {
    StripUnchanged(d);
  }

  /** Nor does a negative numeral. */
  lemma StripNegativeDigits(d: string)
    requires |d| > 0 && AllDigits(d)
    ensures Strip("-" + d) == "-" + d
  {
    var t := "-" + d;
    assert t[0] == '-' && t[|t| - 1] == d[|d| - 1];
    StripUnchanged(t);
  }

  /** A run of digits reads as the number it denotes. */
  lemma ParseSignedDigits(d: string)
    requires |d| > 0 && AllDigits(d) && |d| <= MaxStrDigits
    ensures ParseSigned(d) == Some(DigitsValue(d) as int)
  {
    MagnitudeOfDigits(d);
    assert IsDigit(d[0]);
  }

  /** A minus sign before a run of digits negates it. */
  lemma ParseSignedNegative(d: string)
    requires |d| > 0 && AllDigits(d) && |d| <= MaxStrDigits
    ensures ParseSigned("-" + d) == Some(-(DigitsValue(d) as int))
  {
    MagnitudeOfDigits(d);
    var t := "-" + d;
    assert t[0] == '-' && t[1..] == d;
  }

  /** A numeral (leading zeros allowed), with or without a minus sign, is read back by
      `int()`: in particular `int(str(n)) == n`, by `DecimalValue`. */
  lemma ParseIntDigits(d: string)
    requires |d| > 0 && AllDigits(d) && |d| <= MaxStrDigits
    ensures ParseInt(d) == Some(DigitsValue(d) as int)
    ensures ParseInt("-" + d) == Some(-(DigitsValue(d) as int))
  {
    StripDigits(d);
    StripNegativeDigits(d);
    ParseSignedDigits(d);
    ParseSignedNegative(d);
  }

  /** A run of digits longer than `MaxStrDigits` is no magnitude `int()` accepts. */
  lemma MagnitudeTooLong(d: string)
    requires AllDigits(d) && |d| > MaxStrDigits
    ensures Magnitude(d).None?
  {
    assert DropUnderscores(d) == d;
  }

  /** A numeral longer than `MaxStrDigits`, signed or not, is refused. */
  lemma ParseIntTooLong(d: string)
    requires AllDigits(d) && |d| > MaxStrDigits
    ensures ParseInt(d).None? && ParseInt("-" + d).None?
  {
    StripDigits(d);
    StripNegativeDigits(d);
    MagnitudeTooLong(d);
    assert IsDigit(d[0]);
    assert ParseSigned(d).None?;
    var t := "-" + d;
    assert t[0] == '-' && t[1..] == d;
    assert ParseSigned(t).None?;
  }

  /** A string `int()` accepts contains a digit. */
  lemma ParseIntNeedsDigit(s: string)
    requires ParseInt(s).Some?
    ensures exists k :: 0 <= k < |s| && IsDigit(s[k])
  {
    var t := Strip(s);
    var i := StripIsSlice(s);
    var j := if t[0] == '-' || t[0] == '+' then 1 else 0;
    assert IsDigit(t[j]);
    assert s[i + j] == t[j];
  }

  /** `os.path.join(dir, name)` for a relative `name`, with POSIX separators. */
  function JoinPath(dir: string, name: string): (p: string)
    ensures dir == [] ==> p == name
    ensures dir != [] ==> StartsWith(p, dir) && |p| > |name| && p[|p| - |name|..] == name && p[|p| - |name| - 1] == '/'
    ensures |p| <= |dir| + 1 + |name|
  {
    if dir == [] then name
    else if dir[|dir| - 1] == '/' then dir + name
    else dir + "/" + name
  }

}
