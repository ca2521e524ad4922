/** The C string conventions of the request and mail parsers
    (backend/parserequest.c and backend/parsemail.c): a string is what a
    buffer holds before its first NUL, and `toupper`, `tolower` and
    `isalnum` are those of the C locale. Both programs carry their own
    copies of `str2upper`, `str2lower` and `compress`; the copies are the
    same code, except that parsemail.c fixes `compress`'s limit at 80, so
    each is defined once here. */
module CString {
  import opened Text

  const NUL: char := '\0'

  /** `strlen`: the index of the first NUL, or the buffer's length when it
      has none. */
  function StrLen(s: seq<char>): (n: nat)
    ensures n <= |s| && NUL !in s[..n] && (n < |s| ==> s[n] == NUL)
  {
    IndexOf(s, NUL)
  }

  /** The text of a buffer. */
  function CStr(s: seq<char>): (r: string)
    ensures NUL !in r
  {
    s[..StrLen(s)]
  }

  /** The first NUL is where nothing before it is a NUL. */
  lemma {:induction false} StrLenAt(s: seq<char>, n: nat)
    requires n < |s| && s[n] == NUL && NUL !in s[..n]
    ensures StrLen(s) == n
    decreases n
  {
    assert s[0] == NUL || n > 0;
    if n > 0 {
      assert s[1..][..n - 1] == s[..n][1..];
      StrLenAt(s[1..], n - 1);
    }
  }

  // ---------------------------------------------------------------------------
  // str2upper, str2lower
  // ---------------------------------------------------------------------------

  /** The buffer with its first `t` characters mapped to upper case. */
  function UpperBefore(s: seq<char>, t: nat): (r: seq<char>)
    ensures |r| == |s|
  {
    seq(|s|, i requires 0 <= i < |s| => if i < t then UpperChar(s[i]) else s[i])
  }

  /** The buffer with its first `t` characters mapped to lower case. */
  function LowerBefore(s: seq<char>, t: nat): (r: seq<char>)
    ensures |r| == |s|
  {
    seq(|s|, i requires 0 <= i < |s| => if i < t then LowerChar(s[i]) else s[i])
  }

  /** What `str2upper` leaves in the buffer. */
  function CUpper(s: seq<char>): seq<char> { UpperBefore(s, StrLen(s)) }

  /** What `str2lower` leaves in the buffer. */
  function CLower(s: seq<char>): seq<char> { LowerBefore(s, StrLen(s)) }

  /** Case mapping keeps the NUL where it was, so the text keeps its
      length; the text becomes the upper-cased text and nothing after the
      NUL changes. */
  lemma UpperText(s: seq<char>)
    requires NUL in s
    ensures StrLen(CUpper(s)) == StrLen(s)
    ensures CStr(CUpper(s)) == Upper(CStr(s))
    ensures CUpper(s)[StrLen(s)..] == s[StrLen(s)..]
  {
    var u := CUpper(s);
    var n := StrLen(s);
    assert u[..n] == Upper(s[..n]);
    StrLenAt(u, n);
  }

  /** The same for lower case. */
  lemma LowerText(s: seq<char>)
    requires NUL in s
    ensures StrLen(CLower(s)) == StrLen(s)
    ensures CStr(CLower(s)) == Lower(CStr(s))
    ensures CLower(s)[StrLen(s)..] == s[StrLen(s)..]
  {
    var u := CLower(s);
    var n := StrLen(s);
    assert u[..n] == Lower(s[..n]);
    StrLenAt(u, n);
  }

  /** Upper-casing twice is upper-casing once. */
  lemma UpperIdempotent(s: seq<char>)
    requires NUL in s
    ensures CUpper(CUpper(s)) == CUpper(s)
  {
    UpperText(s);
  }

  /** Lower-casing twice is lower-casing once. */
  lemma LowerIdempotent(s: seq<char>)
    requires NUL in s
    ensures CLower(CLower(s)) == CLower(s)
  {
    LowerText(s);
  }

  /** Lower-casing after upper-casing is lower-casing. */
  lemma LowerAfterUpper(s: seq<char>)
    requires NUL in s
    ensures CLower(CUpper(s)) == CLower(s)
  {
    UpperText(s);
  }

  /** `str2upper`: the characters before the NUL, in place. */
  method Str2Upper(s: array<char>)
    requires NUL in s[..]
    modifies s
    ensures s[..] == CUpper(old(s[..]))
  {
    ghost var s0 := s[..];
    var t := 0;
    while s[t] != NUL
      invariant 0 <= t <= StrLen(s0)
      invariant s[..] == UpperBefore(s0, t)
      decreases StrLen(s0) - t
    {
      s[t] := UpperChar(s[t]);
      t := t + 1;
    }
  }

  /** `str2lower`: the characters before the NUL, in place. */
  method Str2Lower(s: array<char>)
    requires NUL in s[..]
    modifies s
    ensures s[..] == CLower(old(s[..]))
  {
    ghost var s0 := s[..];
    var t := 0;
    while s[t] != NUL
      invariant 0 <= t <= StrLen(s0)
      invariant s[..] == LowerBefore(s0, t)
      decreases StrLen(s0) - t
    {
      s[t] := LowerChar(s[t]);
      t := t + 1;
    }
  }

  // ---------------------------------------------------------------------------
  // compress
  // ---------------------------------------------------------------------------

  /** The characters `compress` keeps. */
  predicate Kept(c: char) { IsAlnum(c) || c == ':' || c == '.' || c == ',' || c == '-' || c == '+' }

  /** The kept characters of `t` up to its first '#'. */
  function CompressText(t: string): (r: string)
    ensures |r| <= |t|
  {
    if t == [] || t[0] == '#' then []
    else (if Kept(t[0]) then [t[0]] else []) + CompressText(t[1..])
  }

  /** How many characters `compress` looks at: `strlen(s)`, but at most
      `nn`. The comparison is between `strlen`'s unsigned result and `nn`,
      so a negative `nn` turns into a huge bound and does not limit. */
  function Limit(s: seq<char>, nn: int): (n: nat)
    ensures n <= StrLen(s) && (nn >= 0 ==> n <= nn)
  {
    if nn < 0 || StrLen(s) < nn then StrLen(s) else nn
  }

  /** What `compress(s1, s, nn)` writes into `s1` before its NUL. */
  function Compressed(s: seq<char>, nn: int): string
  {
    CompressText(s[..Limit(s, nn)])
  }

  /** `compress`: keeps the letters, digits and `: . , - +` among the first
      `nn` characters of `s`, stopping at a '#', and ends them with a NUL. */
  method Compress(s1: array<char>, s: array<char>, nn: int)
    requires s1 != s && NUL in s[..] && |Compressed(s[..], nn)| < s1.Length
    modifies s1
    ensures var r := Compressed(s[..], nn);
            s1[..|r|] == r && s1[|r|] == NUL
    ensures var r := Compressed(s[..], nn);
            forall j :: |r| < j < s1.Length ==> s1[j] == old(s1[j])
  {
    ghost var c := Compressed(s[..], nn);
    ghost var s10 := s1[..];
    var len := StrLen(s[..]);
    var n := if nn < 0 || len < nn then len else nn;
    ghost var t := s[..n];
    assert t[0..] == t;
    var k: nat := 0;
    var i := 0;
    ghost var out: string := [];
    while i < n
      invariant 0 <= i <= n && k <= i && k <= |c|
      invariant s1[..k] == out && out + CompressText(t[i..]) == c
      invariant forall j :: k <= j < s1.Length ==> s1[j] == s10[j]
    {
      if s[i] == '#' {
        assert s[i] == t[i];
        CompressStep(t, i);
        assert out == c;
        break;
      }
      k, out := CompressOne(s1, s, t, c, i, k, out, s10);
      i := i + 1;
    }
    if i == n {
      assert t[i..] == [];
    }
    Terminate(s1, k, c, s10);
  }

  /** The NUL after the `k` characters written, with nothing else changed. */
  method Terminate(s1: array<char>, k: nat, ghost pre: string, ghost s10: seq<char>)
    requires k < s1.Length && |s10| == s1.Length && s1[..k] == pre
    requires forall j :: k <= j < s1.Length ==> s1[j] == s10[j]
    modifies s1
    ensures s1[..k] == pre && s1[k] == NUL
    ensures forall j :: k < j < s1.Length ==> s1[j] == s10[j]
  {
    s1[k] := NUL;
    assert s1[..k] == old(s1[..k]);
  }

  /** One pass of `compress`'s loop over a character that is not a '#': a
      kept character is written at `k`, which then moves on. */
  method CompressOne(s1: array<char>, s: array<char>, ghost t: string, ghost c: string, i: nat, k: nat,
                     ghost out: string, ghost s10: seq<char>)
    returns (k': nat, ghost out': string)
    requires s1 != s && |t| <= s.Length && t == s[..|t|] && i < |t| && s[i] != '#'
    requires |c| < s1.Length && |s10| == s1.Length
    requires k <= i && k <= |c| && s1[..k] == out && out + CompressText(t[i..]) == c
    requires forall j :: k <= j < s1.Length ==> s1[j] == s10[j]
    modifies s1
    ensures k' <= i + 1 && k' <= |c| && s1[..k'] == out' && out' + CompressText(t[i + 1..]) == c
    ensures forall j :: k' <= j < s1.Length ==> s1[j] == s10[j]
  {
    assert s[i] == t[i];
    CompressNext(out, t, i, c);
    k', out' := k, out;
    if Kept(s[i]) {
      s1[k] := s[i];
      Appended(s1[..], k, out);
      out' := out + [s[i]];
      k' := k + 1;
    }
  }

  /** One character of `compress`'s loop that is not a '#'. */
  lemma CompressNext(out: string, t: string, i: nat, c: string)
    requires i < |t| && t[i] != '#' && out + CompressText(t[i..]) == c
    ensures Kept(t[i]) ==> (out + [t[i]]) + CompressText(t[i + 1..]) == c
    ensures !Kept(t[i]) ==> out + CompressText(t[i + 1..]) == c
  {
    CompressStep(t, i);
    assert out + [] == out;
  }

  /** Writing one character after a prefix extends the prefix. */
  lemma Appended(a: seq<char>, k: nat, out: string)
    requires k < |a| && a[..k] == out
    ensures a[..k + 1] == out + [a[k]]
  {
  }

  /** One character of `compress`'s loop. */
  lemma CompressStep(t: string, i: nat)
    requires i < |t|
    ensures CompressText(t[i..]) == if t[i] == '#' then [] else (if Kept(t[i]) then [t[i]] else []) + CompressText(t[i + 1..])
  {
    assert t[i..][1..] == t[i + 1..];
  }

  /** The characters of `t` that `compress` keeps, all the way through. */
  function KeepAll(t: string): (r: string)
    ensures |r| <= |t|
  {
    if t == [] then [] else (if Kept(t[0]) then [t[0]] else []) + KeepAll(t[1..])
  }

  /** `a` is `b` with some characters left out. */
  predicate IsSubsequence(a: string, b: string)
    decreases |b|
  {
    a == [] || (b != [] && if a[0] == b[0] then IsSubsequence(a[1..], b[1..]) else IsSubsequence(a, b[1..]))
  }

  /** Compressing is keeping what comes before the first '#'. */
  lemma {:induction false} CompressBeforeHash(t: string)
    ensures CompressText(t) == KeepAll(t[..IndexOf(t, '#')])
  {
    if t != [] && t[0] != '#' {
      CompressBeforeHash(t[1..]);
      assert t[..IndexOf(t, '#')][1..] == t[1..][..IndexOf(t[1..], '#')];
    }
  }

  /** Only characters `compress` keeps are kept. */
  lemma {:induction false} KeepAllKept(t: string)
    ensures forall i :: 0 <= i < |KeepAll(t)| ==> Kept(KeepAll(t)[i])
  {
    if t != [] {
      KeepAllKept(t[1..]);
    }
  }

  /** What is kept is a subsequence. */
  lemma {:induction false} KeepAllSubsequence(t: string)
    ensures IsSubsequence(KeepAll(t), t)
  {
    if t != [] {
      KeepAllSubsequence(t[1..]);
      if Kept(t[0]) {
        assert KeepAll(t)[1..] == KeepAll(t[1..]);
      } else if KeepAll(t) != [] {
        assert KeepAll(t) == KeepAll(t[1..]);
        KeepAllKept(t[1..]);
        assert KeepAll(t)[0] != t[0];
      }
    }
  }

  /** A kept text is kept whole. */
  lemma {:induction false} KeepAllOfKept(t: string)
    requires forall i :: 0 <= i < |t| ==> Kept(t[i])
    ensures KeepAll(t) == t && CompressText(t) == t
  {
    if t != [] {
      KeepAllOfKept(t[1..]);
    }
  }

  /** The limit is no more than the text, a subsequence of which comes out,
      holding only kept characters (in particular no blank and no '#');
      nothing at or after the first '#' contributes; and compressing the
      result again changes nothing. */
  lemma CompressedProperties(s: seq<char>, nn: int)
    ensures var r := Compressed(s, nn);
            && |r| <= StrLen(s) && (nn >= 0 ==> |r| <= nn)
            && IsSubsequence(r, CStr(s)[..Limit(s, nn)][..IndexOf(CStr(s)[..Limit(s, nn)], '#')])
            && (forall i :: 0 <= i < |r| ==> Kept(r[i]))
            && CompressText(r) == r
  {
    var t := s[..Limit(s, nn)];
    assert CStr(s)[..Limit(s, nn)] == t;
    CompressBeforeHash(t);
    var u := t[..IndexOf(t, '#')];
    KeepAllSubsequence(u);
    KeepAllKept(u);
    KeepAllOfKept(KeepAll(u));
  }
}
