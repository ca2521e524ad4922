/** String helpers with Python's meaning: character classes, `strip`,
    `split`, `startswith`, `in`, `join`, and the `int()` / `float()` parsers.
    Characters outside ASCII only matter for the whitespace class, which lists
    exactly the characters Python's `str.isspace` and the `\s` of its regular
    expressions accept. */
module Text {
  import opened Wrappers

  /** A prefix is the shorter prefix and one more element; the elements
      stay uninterpreted, so no element comparison is needed. */
  lemma PrefixSnoc<T>(s: seq<T>, j: nat)
    requires 0 < j <= |s|
    ensures s[..j] == s[..j - 1] + [s[j - 1]]
  {
  }

  /** A non-empty sequence with one more element is its head before its
      tail with that element. */
  lemma ConsAppend<T>(s: seq<T>, x: T)
    requires s != []
    ensures [s[0]] + (s[1..] + [x]) == s + [x]
  {
  }

  predicate IsDigit(c: char) { '0' <= c <= '9' }
  predicate IsUpper(c: char) { 'A' <= c <= 'Z' }
  predicate IsLower(c: char) { 'a' <= c <= 'z' }
  predicate IsAlpha(c: char) { IsUpper(c) || IsLower(c) }
  predicate IsAlnum(c: char) { IsAlpha(c) || IsDigit(c) }
  /** The `\w` class of a regular expression. */
  predicate IsWordChar(c: char) { IsAlnum(c) || c == '_' }

  /** Python's whitespace: what `str.strip()`, `str.split()` and `\s` remove. */
  predicate IsSpace(c: char)
  {
    ('\t' <= c <= '\r') || ('\U{1C}' <= c <= '\U{1F}') || c == ' '
    || c == '\U{85}' || c == '\U{A0}' || c == '\U{1680}' || ('\U{2000}' <= c <= '\U{200A}')
    || c == '\U{2028}' || c == '\U{2029}' || c == '\U{202F}' || c == '\U{205F}' || c == '\U{3000}'
  }

  function LowerChar(c: char): char { if IsUpper(c) then (c as int + 32) as char else c }
  function UpperChar(c: char): char { if IsLower(c) then (c as int - 32) as char else c }

  function Lower(s: string): (r: string)
    ensures |r| == |s| && forall i :: 0 <= i < |s| ==> r[i] == LowerChar(s[i])
  {
    seq(|s|, i requires 0 <= i < |s| => LowerChar(s[i]))
  }

  function Upper(s: string): (r: string)
    ensures |r| == |s| && forall i :: 0 <= i < |s| ==> r[i] == UpperChar(s[i])
  {
    seq(|s|, i requires 0 <= i < |s| => UpperChar(s[i]))
  }

  predicate AllDigits(s: string) { forall i :: 0 <= i < |s| ==> IsDigit(s[i]) }

  /** `str.isdigit()`: non-empty and all digits. */
  predicate IsDigitString(s: string) { |s| > 0 && AllDigits(s) }

  predicate StartsWith(s: string, p: string) { |p| <= |s| && s[..|p|] == p }

  predicate EndsWith(s: string, p: string) { |p| <= |s| && s[|s| - |p|..] == p }

  /** `sub in s`. */
  predicate Contains(s: string, sub: string)
    decreases |s|
  {
    StartsWith(s, sub) || (|s| > 0 && Contains(s[1..], sub))
  }

  /** An occurrence of `sub` at a given position makes `sub in s` true. */
  lemma {:induction false} ContainsAt(s: string, sub: string, i: nat)
    requires i + |sub| <= |s| && s[i..i + |sub|] == sub
    ensures Contains(s, sub)
    decreases i
  {
    if i > 0 {
      assert s[1..][i - 1..i - 1 + |sub|] == s[i..i + |sub|];
      ContainsAt(s[1..], sub, i - 1);
    } else {
      assert s[..|sub|] == sub;
    }
  }

  /** `sub in s` means some character-for-character occurrence. */
  lemma {:induction false} ContainsOccurrence(s: string, sub: string) returns (i: nat)
    requires Contains(s, sub)
    ensures i + |sub| <= |s| && s[i..i + |sub|] == sub
    decreases |s|
  {
    if StartsWith(s, sub) {
      i := 0;
    } else {
      var j := ContainsOccurrence(s[1..], sub);
      assert s[1..][j..j + |sub|] == s[j + 1..j + 1 + |sub|];
      i := j + 1;
    }
  }

  function LStrip(s: string): (r: string)
    ensures |r| <= |s| && r == s[|s| - |r|..]
    ensures r != [] ==> !IsSpace(r[0])
    ensures forall i :: 0 <= i < |s| - |r| ==> IsSpace(s[i])
    decreases |s|
  {
    if |s| > 0 && IsSpace(s[0]) then LStrip(s[1..]) else s
  }

  function RStrip(s: string): (r: string)
    ensures |r| <= |s| && r == s[..|r|]
    ensures r != [] ==> !IsSpace(r[|r| - 1])
    ensures forall i :: |r| <= i < |s| ==> IsSpace(s[i])
    decreases |s|
  {
    if |s| > 0 && IsSpace(s[|s| - 1]) then RStrip(s[..|s| - 1]) else s
  }

  /** `str.strip()`. */
  function Strip(s: string): (r: string)
    ensures |r| <= |s|
    ensures r != [] ==> !IsSpace(r[0]) && !IsSpace(r[|r| - 1])
  {
    LStrip(RStrip(s))
  }

  /** `str.lstrip(c)` / `str.rstrip(c)` for one character. */
  function LStripChar(s: string, c: char): (r: string)
    ensures |r| <= |s| && r == s[|s| - |r|..] && (r != [] ==> r[0] != c)
    decreases |s|
  {
    if |s| > 0 && s[0] == c then LStripChar(s[1..], c) else s
  }

  function RStripChar(s: string, c: char): (r: string)
    ensures |r| <= |s| && r == s[..|r|] && (r != [] ==> r[|r| - 1] != c)
    decreases |s|
  {
    if |s| > 0 && s[|s| - 1] == c then RStripChar(s[..|s| - 1], c) else s
  }

  /** `s.replace(c, '')`: every occurrence of one character removed. */
  function RemoveChar(s: string, c: char): (r: string)
    ensures |r| <= |s| && c !in r
    ensures forall x :: x in r ==> x in s
  {
    if s == [] then [] else (if s[0] == c then [] else [s[0]]) + RemoveChar(s[1..], c)
  }

  lemma {:induction false} RemoveCharAppend(a: string, b: string, c: char)
    ensures RemoveChar(a + b, c) == RemoveChar(a, c) + RemoveChar(b, c)
    decreases |a|
  {
    if a != [] {
      assert (a + b)[1..] == a[1..] + b;
      RemoveCharAppend(a[1..], b, c);
    } else {
      assert a + b == b;
    }
  }

  lemma {:induction false} RemoveCharAbsent(a: string, c: char)
    requires c !in a
    ensures RemoveChar(a, c) == a
    decreases |a|
  {
    if a != [] {
      RemoveCharAbsent(a[1..], c);
      assert a == [a[0]] + a[1..];
    }
  }

  function RemoveSpaces(s: string): (r: string)
    ensures |r| <= |s| && forall i :: 0 <= i < |r| ==> !IsSpace(r[i])
  {
    if s == [] then [] else (if IsSpace(s[0]) then [] else [s[0]]) + RemoveSpaces(s[1..])
  }

  /** Index of the first `c` in `s`, or `|s|`. */
  function IndexOf(s: string, c: char): (i: nat)
    ensures i <= |s| && c !in s[..i] && (i < |s| ==> s[i] == c)
  {
    if s == [] then 0 else if s[0] == c then 0 else 1 + IndexOf(s[1..], c)
  }

  /** Index of the first whitespace character of `s`, or `|s|`. */
  function IndexOfSpace(s: string): (i: nat)
    ensures i <= |s| && (forall j :: 0 <= j < i ==> !IsSpace(s[j])) && (i < |s| ==> IsSpace(s[i]))
  {
    if s == [] then 0 else if IsSpace(s[0]) then 0 else 1 + IndexOfSpace(s[1..])
  }

  /** `s.split(c)`: always at least one piece, none containing `c`. */
  function SplitOn(s: string, c: char): (r: seq<string>)
    ensures |r| >= 1 && forall k :: 0 <= k < |r| ==> c !in r[k]
    decreases |s|
  {
    var i := IndexOf(s, c);
    if i == |s| then [s] else [s[..i]] + SplitOn(s[i + 1..], c)
  }

  lemma {:induction false} IndexOfAfterPrefix(a: string, rest: string, c: char)
    requires c !in a
    ensures IndexOf(a + [c] + rest, c) == |a|
    decreases |a|
  {
    if a != [] {
      assert (a + [c] + rest)[1..] == a[1..] + [c] + rest;
      IndexOfAfterPrefix(a[1..], rest, c);
    }
  }

  /** Splitting at `c` takes off a first piece that holds no `c`. */
  lemma {:induction false} SplitOnCons(a: string, rest: string, c: char)
    requires c !in a
    ensures SplitOn(a + [c] + rest, c) == [a] + SplitOn(rest, c)
  {
    var s := a + [c] + rest;
    IndexOfAfterPrefix(a, rest, c);
    assert s[..|a|] == a && s[|a| + 1..] == rest;
  }

  /** The text of a file written one line at a time, each line ended by a newline. */
  function UnlinesText(ls: seq<string>): string
  {
    if ls == [] then [] else ls[0] + "\n" + UnlinesText(ls[1..])
  }

  /** Splitting such a text at newlines gives back its lines, then the empty
      remainder after the last newline. */
  lemma {:induction false} SplitUnlines(ls: seq<string>)
    requires forall j :: 0 <= j < |ls| ==> '\n' !in ls[j]
    ensures SplitOn(UnlinesText(ls), '\n') == ls + [""]
  {
    if ls == [] {
      assert SplitOn([], '\n') == [[]];
    } else {
      SplitUnlines(ls[1..]);
      assert UnlinesText(ls) == ls[0] + ['\n'] + UnlinesText(ls[1..]);
      SplitOnCons(ls[0], UnlinesText(ls[1..]), '\n');
      ConsAppend(ls, "");
    }
  }

  /** A word: non-empty and without whitespace. */
  predicate IsWord(w: string) { w != [] && forall j :: 0 <= j < |w| ==> !IsSpace(w[j]) }

  /** `s.split()`: the maximal runs of non-whitespace characters. */
  function SplitWs(s: string): (r: seq<string>)
    ensures forall k :: 0 <= k < |r| ==> IsWord(r[k])
    decreases |s|
  {
    if s == [] then []
    else if IsSpace(s[0]) then SplitWs(s[1..])
    else
      var n := IndexOfSpace(s);
      [s[..n]] + SplitWs(s[n..])
  }

  /** `s.split(None, 1)`: the first word and, when something follows it,
      the remainder with its leading whitespace removed. */
  function SplitWsOnce(s: string): (r: seq<string>)
    ensures |r| <= 2
    ensures |r| >= 1 ==> r[0] != [] && forall j :: 0 <= j < |r[0]| ==> !IsSpace(r[0][j])
    ensures |r| == 2 ==> r[1] != [] && !IsSpace(r[1][0])
  {
    var t := LStrip(s);
    if t == [] then []
    else
      var n := IndexOfSpace(t);
      var w := t[..n];
      assert w != [] && forall j :: 0 <= j < |w| ==> !IsSpace(w[j]);
      var rest := LStrip(t[n..]);
      if rest == [] then [w] else [w, rest]
  }

  lemma {:induction false} IndexOfSpaceAfterWord(w: string, rest: string)
    requires IsWord(w) && rest != [] && IsSpace(rest[0])
    ensures IndexOfSpace(w + rest) == |w|
    decreases |w|
  {
    if |w| > 1 {
      assert (w + rest)[1..] == w[1..] + rest;
      IndexOfSpaceAfterWord(w[1..], rest);
    } else {
      assert (w + rest)[1..] == rest;
    }
  }

  /** A word, one whitespace character and a remainder that starts with no
      whitespace split once into the word and the remainder. */
  lemma {:induction false} SplitWsOnceOfPair(w: string, sep: char, v: string)
    requires IsWord(w) && IsSpace(sep) && v != [] && !IsSpace(v[0])
    ensures SplitWsOnce(w + [sep] + v) == [w, v]
  {
    var line := w + [sep] + v;
    assert line[0] == w[0];
    assert LStrip(line) == line;
    var tv := [sep] + v;
    assert line == w + tv;
    IndexOfSpaceAfterWord(w, tv);
    assert line[|w|..] == tv && line[..|w|] == w;
    assert tv[1..] == v;
    assert LStrip(tv) == LStrip(v);
    assert LStrip(v) == v;
  }

  /** `sep.join(parts)`. */
  function Join(parts: seq<string>, sep: string): string
  {
    if parts == [] then [] else if |parts| == 1 then parts[0] else parts[0] + sep + Join(parts[1..], sep)
  }

  /** Splitting a joined text at its one-character separator gives back the
      parts, as long as none of them holds the separator. */
  lemma {:induction false} SplitJoin(parts: seq<string>, c: char)
    requires |parts| >= 1 && forall k :: 0 <= k < |parts| ==> c !in parts[k]
    ensures SplitOn(Join(parts, [c]), c) == parts
    decreases |parts|
  {
    if |parts| == 1 {
      assert c !in parts[0];
      assert IndexOf(parts[0], c) == |parts[0]|;
    } else {
      SplitJoin(parts[1..], c);
      assert c !in parts[0];
      SplitOnCons(parts[0], Join(parts[1..], [c]), c);
      assert Join(parts, [c]) == parts[0] + [c] + Join(parts[1..], [c]);
      assert parts == [parts[0]] + parts[1..];
    }
  }

  function DigitValue(c: char): nat requires IsDigit(c) { c as int - '0' as int }

  function DigitChar(d: nat): (c: char)
    requires d < 10
    ensures IsDigit(c) && DigitValue(c) == d
  {
    ('0' as int + d) as char
  }

  /** The number a string of decimal digits denotes. */
  function DigitsValue(s: string): nat
    requires AllDigits(s)
  {
    if s == [] then 0 else 10 * DigitsValue(s[..|s| - 1]) + DigitValue(s[|s| - 1])
  }

  /** Decimal notation of a natural number, without leading zeros. */
  function NatToString(n: nat): (r: string)
    ensures IsDigitString(r) && DigitsValue(r) == n
    ensures |r| > 1 ==> r[0] != '0'
    decreases n
  {
    if n < 10 then [DigitChar(n)]
    else
      var r := NatToString(n / 10) + [DigitChar(n % 10)];
      assert r[..|r| - 1] == NatToString(n / 10);
      r
  }

  /** `str(n)` of a Python int. */
  function IntToString(n: int): string
  {
    if n < 0 then "-" + NatToString(-n) else NatToString(n)
  }

  /** The texts of integers. */
  function IntStrings(xs: seq<int>): (r: seq<string>)
    ensures |r| == |xs| && forall k :: 0 <= k < |xs| ==> r[k] == IntToString(xs[k])
  {
    seq(|xs|, k requires 0 <= k < |xs| => IntToString(xs[k]))
  }

  /** The text of an integer is a sign and digits. */
  lemma IntToStringChars(n: int)
    ensures forall k :: 0 <= k < |IntToString(n)| ==> IsDigit(IntToString(n)[k]) || IntToString(n)[k] == '-'
  {
    if n < 0 {
      var d := NatToString(-n);
      assert forall k :: 1 <= k < |IntToString(n)| ==> IntToString(n)[k] == d[k - 1];
    }
  }

  /** `n` in decimal, left-padded with zeros to at least `width` digits: the
      `{n:0<width>d}` of a format string for a natural number. */
  function ZeroPad(n: nat, width: nat): (r: string)
    ensures IsDigitString(r) && DigitsValue(r) == n
    ensures |r| == if |NatToString(n)| < width then width else |NatToString(n)|
    decreases width
  {
    if |NatToString(n)| < width then
      var r := "0" + ZeroPad(n, width - 1);
      LeadingZero(r);
      r
    else NatToString(n)
  }

  /** A leading zero does not change the value of a digit string. */
  lemma {:induction false} LeadingZero(s: string)
    requires |s| > 1 && s[0] == '0' && AllDigits(s)
    ensures DigitsValue(s) == DigitsValue(s[1..])
    decreases |s|
  {
    if |s| > 2 {
      LeadingZero(s[..|s| - 1]);
      assert s[..|s| - 1][1..] == s[1..][..|s[1..]| - 1];
    } else {
      assert s[..|s| - 1] == "0";
      assert s[1..][..|s[1..]| - 1] == [];
    }
  }

  /** Python's `{n:0<width>d}` for any integer: a negative number is its sign
      followed by the magnitude padded to `width - 1` digits. */
  function FormatPadded(n: int, width: nat): string
  {
    if n < 0 then "-" + ZeroPad(-n, if width > 0 then width - 1 else 0) else ZeroPad(n, width)
  }

  /** Python's `int(s)` on a string: optional surrounding whitespace, an optional
      sign, then one or more digits; `None` where Python raises `ValueError`. */
  function ParseInt(s: string): (r: Option<int>)
  {
    var t := Strip(s);
    if |t| > 0 && (t[0] == '-' || t[0] == '+') then
      (if IsDigitString(t[1..]) then
         var v: int := DigitsValue(t[1..]);
         Some(if t[0] == '-' then -v else v)
       else None)
    else if IsDigitString(t) then Some(DigitsValue(t))
    else None
  }

  function Pow10(k: nat): (r: nat) ensures r >= 1 { if k == 0 then 1 else 10 * Pow10(k - 1) }

  /** The unsigned decimal `int.frac` with either part possibly empty, but not both. */
  predicate IsUnsignedDecimal(t: string)
  {
    var i := IndexOf(t, '.');
    AllDigits(t[..i])
    && (i < |t| ==> AllDigits(t[i + 1..]))
    && (i > 0 || (i < |t| && i + 1 < |t|))
  }

  function UnsignedDecimalValue(t: string): real
    requires IsUnsignedDecimal(t)
  {
    var i := IndexOf(t, '.');
    var whole := DigitsValue(t[..i]) as real;
    if i == |t| then whole
    else whole + DigitsValue(t[i + 1..]) as real / Pow10(|t| - i - 1) as real
  }

  /** Python's `float(s)` on the decimal notations modelled here, which are optional
      surrounding whitespace, an optional sign, digits with at most one dot;
      `None` where Python raises `ValueError`. */
  function ParseFloat(s: string): (r: Option<real>)
  {
    var t := Strip(s);
    if |t| > 0 && (t[0] == '-' || t[0] == '+') then
      (if IsUnsignedDecimal(t[1..]) then
         Some(if t[0] == '-' then -UnsignedDecimalValue(t[1..]) else UnsignedDecimalValue(t[1..]))
       else None)
    else if IsUnsignedDecimal(t) then Some(UnsignedDecimalValue(t))
    else None
  }

  /** Every line stripped. */
  function StripAll(lines: seq<string>): (r: seq<string>)
    ensures |r| == |lines| && forall j :: 0 <= j < |lines| ==> r[j] == Strip(lines[j])
  {
    seq(|lines|, j requires 0 <= j < |lines| => Strip(lines[j]))
  }

  /** The stripped text of `s` starts with a character of `s`. */
  lemma StripStartsInside(s: string)
    requires Strip(s) != []
    ensures Strip(s)[0] in s
  {
    var r := RStrip(s);
    assert Strip(s) == r[|r| - |Strip(s)|..];
    assert Strip(s)[0] == s[|r| - |Strip(s)|];
  }

  lemma {:induction false} StripIdentity(s: string)
    requires s == [] || (!IsSpace(s[0]) && !IsSpace(s[|s| - 1]))
    ensures Strip(s) == s
  {
  }

  lemma {:induction false} StripIdempotent(s: string)
    ensures Strip(Strip(s)) == Strip(s)
  {
    StripIdentity(Strip(s));
  }

  lemma {:induction false} ParseIntOfNatString(n: nat, s: string)
    requires s == NatToString(n)
    ensures ParseInt(s) == Some(n)
  {
    assert !IsSpace(s[0]) && !IsSpace(s[|s| - 1]);
    StripIdentity(s);
    assert s[0] != '-' && s[0] != '+';
  }

  /** `int()` of a text of digits, leading zeros included, is their value. */
  lemma ParseIntOfDigits(s: string)
    requires IsDigitString(s)
    ensures ParseInt(s) == Some(DigitsValue(s))
  {
    assert IsDigit(s[0]) && IsDigit(s[|s| - 1]);
    StripIdentity(s);
  }

  /** A number below `10^(k+1)` has at most `k + 1` digits. */
  lemma {:induction false} NatToStringShorter(n: nat, k: nat)
    requires n < Pow10(k + 1)
    ensures |NatToString(n)| <= k + 1
    decreases k
  {
    if n >= 10 {
      assert k > 0;
      assert n / 10 < Pow10(k);
      NatToStringShorter(n / 10, k - 1);
    }
  }

  /** `int(str(n)) == n`. */
  lemma {:induction false} ParseIntOfIntToString(n: int)
    ensures ParseInt(IntToString(n)) == Some(n)
  {
    if n >= 0 {
      ParseIntOfNatString(n, NatToString(n));
    } else {
      var d := NatToString(-n);
      var s := "-" + d;
      assert s == IntToString(n);
      assert !IsSpace(s[|s| - 1]) by { assert s[|s| - 1] == d[|d| - 1]; }
      StripIdentity(s);
      assert s[1..] == d;
    }
  }
}
