/** The mail front end of the request system (backend/parsemail.c): its
    `compress` (the rule of CString with the limit fixed at 80), the quote
    stripper that removes aliases from a From: line, and the lookup of a
    sender in the client register. */
module ParseMail {
  import opened Wrappers
  import opened Text
  import opened CString

  // ---------------------------------------------------------------------------
  // compress
  // ---------------------------------------------------------------------------

  /** parsemail.c's `compress`: at most the first 80 characters are read,
      `strlen(s) < 80 ? strlen(s) : 80`, which is `Limit(s, 80)`. */
  method Compress(s1: array<char>, s: array<char>)
    requires s1 != s && NUL in s[..] && 80 < s1.Length
    modifies s1
    ensures var r := Compressed(s[..], 80);
            |r| <= 80 && s1[..|r|] == r && s1[|r|] == NUL
    ensures var r := Compressed(s[..], 80);
            forall j :: |r| < j < s1.Length ==> s1[j] == old(s1[j])
  {
    CompressedProperties(s[..], 80);
    CString.Compress(s1, s, 80);
  }

  // ---------------------------------------------------------------------------
  // swallow_quotes
  // ---------------------------------------------------------------------------

  /** What `swallow_quotes` copies of `txt` when it starts inside (`quote`)
      or outside a quote: the copied text, and whether a quote is open at
      the end. An opening quote outside a quote opens one, a closing quote
      inside one closes it, and only what lies outside quotes is copied; a
      closing quote outside a quote is ordinary text. */
  function Unquoted(txt: string, openQ: char, closeQ: char, quote: bool): (r: (string, bool))
    ensures |r.0| <= |txt|
  {
    if txt == [] then ([], quote)
    else if txt[0] == openQ && !quote then Unquoted(txt[1..], openQ, closeQ, true)
    else if txt[0] == closeQ && quote then Unquoted(txt[1..], openQ, closeQ, false)
    else if !quote then
      var r := Unquoted(txt[1..], openQ, closeQ, quote);
      ([txt[0]] + r.0, r.1)
    else Unquoted(txt[1..], openQ, closeQ, quote)
  }

  /** The text `swallow_quotes` leaves in `t`: the copied text, or nothing
      when a quote is left open. */
  function Swallowed(txt: string, openQ: char, closeQ: char): string
  {
    var r := Unquoted(txt, openQ, closeQ, false);
    if r.1 then [] else r.0
  }

  /** One character of `swallow_quotes`'s loop. */
  lemma UnquotedStep(txt: string, i: nat, openQ: char, closeQ: char, quote: bool)
    requires i < |txt|
    ensures var c := txt[i];
            var rest := txt[i + 1..];
            Unquoted(txt[i..], openQ, closeQ, quote) ==
              if c == openQ && !quote then Unquoted(rest, openQ, closeQ, true)
              else if c == closeQ && quote then Unquoted(rest, openQ, closeQ, false)
              else if !quote then ([c] + Unquoted(rest, openQ, closeQ, quote).0, Unquoted(rest, openQ, closeQ, quote).1)
              else Unquoted(rest, openQ, closeQ, quote)
  {
    assert txt[i..][1..] == txt[i + 1..];
  }

  /** `swallow_quotes(t, s, open_q, close_q)`: copies the text of `s` into
      `t` without its quoted parts, ends it with a NUL and returns its
      length, or empties `t` and returns 0 when a quote is not closed. `t`
      may be `s` itself (the mail parser strips parenthesised aliases in
      place): each character is written no later than it is read. */
  method SwallowQuotes(t: array<char>, s: array<char>, openQ: char, closeQ: char) returns (len: int)
    requires NUL in s[..]
    requires var r := Unquoted(CStr(s[..]), openQ, closeQ, false);
             if r.1 then 0 < t.Length && |r.0| <= t.Length else |r.0| < t.Length
    modifies t
    ensures len == |Swallowed(CStr(old(s[..])), openQ, closeQ)|
    ensures var r := Unquoted(CStr(old(s[..])), openQ, closeQ, false);
            t[..] == (r.0 + old(t[..])[|r.0|..])[len := NUL]
  {
    var quote;
    len, quote := CopyUnquoted(t, s, openQ, closeQ);
    if quote {
      len := 0;
    }
    t[len] := NUL;
  }

  /** The loop of `swallow_quotes`: copies what lies outside quotes to the
      front of `t`, and says whether a quote is left open. */
  method CopyUnquoted(t: array<char>, s: array<char>, openQ: char, closeQ: char) returns (len: nat, quote: bool)
    requires NUL in s[..]
    requires |Unquoted(CStr(s[..]), openQ, closeQ, false).0| <= t.Length
    modifies t
    ensures var r := Unquoted(CStr(old(s[..])), openQ, closeQ, false);
            len == |r.0| && quote == r.1 && t[..] == r.0 + old(t[..])[len..]
  {
    ghost var s0 := s[..];
    ghost var t0 := t[..];
    ghost var txt := CStr(s0);
    ghost var res := Unquoted(txt, openQ, closeQ, false);
    quote := false;
    len := 0;
    var i := 0;
    ghost var out: string := [];
    assert txt[0..] == txt;
    while s[i] != NUL
      invariant 0 <= len <= i <= StrLen(s0) && |txt| == StrLen(s0)
      invariant forall j :: i <= j < s.Length ==> s[j] == s0[j]
      invariant len == |out| <= |res.0| && t[..len] == out
      invariant forall j :: len <= j < t.Length ==> t[j] == t0[j]
      invariant out + Unquoted(txt[i..], openQ, closeQ, quote).0 == res.0
      invariant Unquoted(txt[i..], openQ, closeQ, quote).1 == res.1
      decreases StrLen(s0) - i
    {
      len, quote, out := CopyStep(t, s, i, openQ, closeQ, len, quote, s0, t0, txt, res, out);
      i := i + 1;
    }
    assert txt[i..] == [];
    PrefixThenRest(t[..], t0, len, out);
  }

  /** One character of `swallow_quotes`'s loop, on the buffers. */
  method CopyStep(t: array<char>, s: array<char>, i: nat, openQ: char, closeQ: char,
                  len: nat, quote: bool, ghost s0: seq<char>, ghost t0: seq<char>,
                  ghost txt: string, ghost res: (string, bool), ghost out: string)
      returns (len': nat, quote': bool, ghost out': string)
    requires |s0| == s.Length && |t0| == t.Length && |res.0| <= t.Length
    requires i < |txt| <= |s0| && txt == s0[..|txt|]
    requires len <= i && forall j :: i <= j < s.Length ==> s[j] == s0[j]
    requires len == |out| <= |res.0| && t[..len] == out
    requires forall j :: len <= j < t.Length ==> t[j] == t0[j]
    requires out + Unquoted(txt[i..], openQ, closeQ, quote).0 == res.0
    requires Unquoted(txt[i..], openQ, closeQ, quote).1 == res.1
    modifies t
    ensures len' <= i + 1 && forall j :: i + 1 <= j < s.Length ==> s[j] == s0[j]
    ensures len' == |out'| <= |res.0| && t[..len'] == out'
    ensures forall j :: len' <= j < t.Length ==> t[j] == t0[j]
    ensures out' + Unquoted(txt[i + 1..], openQ, closeQ, quote').0 == res.0
    ensures Unquoted(txt[i + 1..], openQ, closeQ, quote').1 == res.1
  {
    assert s[i] == txt[i];
    len', quote', out' := len, quote, out;
    if s[i] == openQ && !quote {
      quote' := true;
    } else if s[i] == closeQ && quote {
      quote' := false;
    } else if !quote {
      Put(t, len, s[i], out);
      out' := out + [txt[i]];
      len' := len + 1;
    }
    SwallowStep(txt, i, openQ, closeQ, quote, out, res, quote', out');
  }

  /** A buffer whose first `k` characters are `pre` and whose others are
      those of `b`. */
  lemma PrefixThenRest(a: seq<char>, b: seq<char>, k: nat, pre: string)
    requires |a| == |b| && k <= |a| && a[..k] == pre
    requires forall j :: k <= j < |a| ==> a[j] == b[j]
    ensures a == pre + b[k..]
  {
  }

  /** Writes `c` right after the `k` characters `pre` already in `t`. */
  method Put(t: array<char>, k: nat, c: char, ghost pre: string)
    requires k < t.Length && t[..k] == pre
    modifies t
    ensures t[..k + 1] == pre + [c]
    ensures forall j :: 0 <= j < t.Length && j != k ==> t[j] == old(t[j])
  {
    t[k] := c;
    Appended(t[..], k, pre);
  }

  /** One character of `swallow_quotes`'s loop, on the text copied so far
      and the quote state: what remains to be copied shrinks by what the
      character adds. */
  lemma SwallowStep(txt: string, i: nat, openQ: char, closeQ: char, quote: bool, out: string,
                    res: (string, bool), quote': bool, out': string)
    requires i < |txt|
    requires out + Unquoted(txt[i..], openQ, closeQ, quote).0 == res.0
    requires Unquoted(txt[i..], openQ, closeQ, quote).1 == res.1
    requires quote' == if txt[i] == openQ && !quote then true else if txt[i] == closeQ && quote then false else quote
    requires out' == if !(txt[i] == openQ && !quote) && !(txt[i] == closeQ && quote) && !quote then out + [txt[i]] else out
    ensures out' + Unquoted(txt[i + 1..], openQ, closeQ, quote').0 == res.0
    ensures Unquoted(txt[i + 1..], openQ, closeQ, quote').1 == res.1
    ensures |out'| <= |res.0|
  {
    UnquotedStep(txt, i, openQ, closeQ, quote);
    if !(txt[i] == openQ && !quote) && !(txt[i] == closeQ && quote) && !quote {
      assert out + [txt[i]] + Unquoted(txt[i + 1..], openQ, closeQ, quote).0 == res.0;
    }
  }

  /** Scanning a concatenation is scanning the parts one after the other. */
  lemma {:induction false} UnquotedAppend(x: string, y: string, openQ: char, closeQ: char, quote: bool)
    ensures var rx := Unquoted(x, openQ, closeQ, quote);
            var ry := Unquoted(y, openQ, closeQ, rx.1);
            Unquoted(x + y, openQ, closeQ, quote) == (rx.0 + ry.0, ry.1)
  {
    if x == [] {
      assert x + y == y;
      assert [] + Unquoted(y, openQ, closeQ, quote).0 == Unquoted(y, openQ, closeQ, quote).0;
    } else {
      assert (x + y)[0] == x[0] && (x + y)[1..] == x[1..] + y;
      var q := if x[0] == openQ && !quote then true else if x[0] == closeQ && quote then false else quote;
      UnquotedAppend(x[1..], y, openQ, closeQ, q);
      var r1 := Unquoted(x[1..], openQ, closeQ, q);
      var ry := Unquoted(y, openQ, closeQ, r1.1);
      assert [x[0]] + (r1.0 + ry.0) == ([x[0]] + r1.0) + ry.0;
    }
  }

  /** What is copied is a subsequence of the text. */
  lemma {:induction false} UnquotedSubsequence(txt: string, openQ: char, closeQ: char, quote: bool)
    ensures IsSubsequence(Unquoted(txt, openQ, closeQ, quote).0, txt)
  {
    if txt != [] {
      var q := if txt[0] == openQ && !quote then true else if txt[0] == closeQ && quote then false else quote;
      UnquotedSubsequence(txt[1..], openQ, closeQ, q);
      var r := Unquoted(txt, openQ, closeQ, quote);
      var r1 := Unquoted(txt[1..], openQ, closeQ, q);
      if !(txt[0] == openQ && !quote) && !(txt[0] == closeQ && quote) && !quote {
        assert r.0[1..] == r1.0;
      } else {
        assert r.0 == r1.0;
        SubsequenceOfTail(r.0, txt);
      }
    }
  }

  /** A subsequence of a text's tail is a subsequence of the text. */
  lemma {:induction false} SubsequenceOfTail(a: string, b: string)
    requires b != [] && IsSubsequence(a, b[1..])
    ensures IsSubsequence(a, b)
    decreases |b|, |a|, 1
  {
    if a != [] && a[0] == b[0] {
      SubsequenceDropFirst(a, b[1..]);
    }
  }

  /** Dropping the first character of a subsequence keeps it one. */
  lemma {:induction false} SubsequenceDropFirst(a: string, b: string)
    requires a != [] && IsSubsequence(a, b)
    ensures IsSubsequence(a[1..], b)
    decreases |b|, |a|, 0
  {
    if a[0] == b[0] {
      if a[1..] != [] {
        SubsequenceOfTail(a[1..], b);
      }
    } else {
      SubsequenceDropFirst(a, b[1..]);
      if a[1..] != [] {
        SubsequenceOfTail(a[1..], b);
      }
    }
  }

  /** Outside quotes, a text without an opening quote is copied whole. */
  lemma {:induction false} NoQuoteCopied(txt: string, openQ: char, closeQ: char)
    requires openQ !in txt
    ensures Unquoted(txt, openQ, closeQ, false) == (txt, false)
  {
    if txt != [] {
      NoQuoteCopied(txt[1..], openQ, closeQ);
      assert [txt[0]] + txt[1..] == txt;
    }
  }

  /** Inside a quote, a text without a closing quote is dropped and leaves
      the quote open. */
  lemma {:induction false} InsideQuoteDropped(txt: string, openQ: char, closeQ: char)
    requires closeQ !in txt
    ensures Unquoted(txt, openQ, closeQ, true) == ([], true)
  {
    if txt != [] {
      InsideQuoteDropped(txt[1..], openQ, closeQ);
    }
  }

  /** `swallow_quotes`'s output is a subsequence of its input. */
  lemma SwallowedSubsequence(txt: string, openQ: char, closeQ: char)
    ensures IsSubsequence(Swallowed(txt, openQ, closeQ), txt)
  {
    UnquotedSubsequence(txt, openQ, closeQ, false);
  }

  /** Input without an opening quote comes out unchanged. */
  lemma SwallowedNoQuote(txt: string, openQ: char, closeQ: char)
    requires openQ !in txt
    ensures Swallowed(txt, openQ, closeQ) == txt
  {
    NoQuoteCopied(txt, openQ, closeQ);
  }

  /** The scan of text up to and with an opening quote, and then text
      without a closing quote. */
  lemma {:induction false} OpenedQuote(a: string, b: string, openQ: char, closeQ: char)
    requires openQ !in a && closeQ !in b
    ensures Unquoted(a + [openQ] + b, openQ, closeQ, false) == (a, true)
  {
    if a == [] {
      assert a + [openQ] + b == [openQ] + b && ([openQ] + b)[1..] == b;
      InsideQuoteDropped(b, openQ, closeQ);
    } else {
      assert (a + [openQ] + b)[1..] == a[1..] + [openQ] + b;
      OpenedQuote(a[1..], b, openQ, closeQ);
      assert [a[0]] + a[1..] == a;
    }
  }

  /** Inside a quote, text without a closing quote is dropped up to the
      closing quote, after which the scan goes on outside. */
  lemma {:induction false} ClosedQuote(b: string, c: string, openQ: char, closeQ: char)
    requires closeQ !in b
    ensures Unquoted(b + [closeQ] + c, openQ, closeQ, true) == Unquoted(c, openQ, closeQ, false)
  {
    if b == [] {
      assert b + [closeQ] + c == [closeQ] + c && ([closeQ] + c)[1..] == c;
    } else {
      assert (b + [closeQ] + c)[1..] == b[1..] + [closeQ] + c;
      ClosedQuote(b[1..], c, openQ, closeQ);
    }
  }

  /** A quoted part is dropped together with its quotes, and the scan goes
      on after it as from the start. */
  lemma {:induction false} QuoteDropped(a: string, b: string, c: string, openQ: char, closeQ: char)
    requires openQ !in a && closeQ !in b
    ensures var r := Unquoted(c, openQ, closeQ, false);
            Unquoted(a + [openQ] + b + [closeQ] + c, openQ, closeQ, false) == (a + r.0, r.1)
  {
    if a == [] {
      assert a + [openQ] + b + [closeQ] + c == [openQ] + (b + [closeQ] + c);
      assert ([openQ] + (b + [closeQ] + c))[1..] == b + [closeQ] + c;
      ClosedQuote(b, c, openQ, closeQ);
      assert [] + Unquoted(c, openQ, closeQ, false).0 == Unquoted(c, openQ, closeQ, false).0;
    } else {
      assert (a + [openQ] + b + [closeQ] + c)[1..] == a[1..] + [openQ] + b + [closeQ] + c;
      QuoteDropped(a[1..], b, c, openQ, closeQ);
      var r := Unquoted(c, openQ, closeQ, false);
      assert [a[0]] + (a[1..] + r.0) == a + r.0;
    }
  }

  /** In particular, a quoted part between two unquoted texts is cut out. */
  lemma SwallowedQuoteDropped(a: string, b: string, c: string, openQ: char, closeQ: char)
    requires openQ !in a && closeQ !in b && openQ !in c
    ensures Swallowed(a + [openQ] + b + [closeQ] + c, openQ, closeQ) == a + c
  {
    QuoteDropped(a, b, c, openQ, closeQ);
    NoQuoteCopied(c, openQ, closeQ);
  }

  /** A quote left open empties the output. */
  lemma SwallowedUnclosed(a: string, b: string, openQ: char, closeQ: char)
    requires openQ !in a && closeQ !in b
    ensures Swallowed(a + [openQ] + b, openQ, closeQ) == []
  {
    OpenedQuote(a, b, openQ, closeQ);
  }

  // ---------------------------------------------------------------------------
  // CheckClient
  // ---------------------------------------------------------------------------

  /** The buffer with every non-letter before its NUL turned into a blank. */
  function NonLettersBlanked(s: seq<char>): (r: seq<char>)
    ensures |r| == |s|
  {
    seq(|s|, i requires 0 <= i < |s| => if i < StrLen(s) && !IsAlpha(s[i]) then ' ' else s[i])
  }

  /** The loop of `CheckClient` that blanks every non-letter of a
      client-name line. */
  method BlankNonLetters(s: array<char>)
    requires NUL in s[..]
    modifies s
    ensures s[..] == NonLettersBlanked(old(s[..]))
  {
    ghost var s0 := s[..];
    var i := 0;
    while i < StrLen(s[..])
      invariant 0 <= i <= StrLen(s0) && StrLen(s[..]) == StrLen(s0)
      invariant forall j :: 0 <= j < s.Length ==> s[j] == if j < i && !IsAlpha(s0[j]) then ' ' else s0[j]
    {
      if !IsAlpha(s[i]) {
        s[i] := ' ';
      }
      i := i + 1;
      StrLenAt(s[..], StrLen(s0));
    }
  }

  /** The buffer `fgets` fills from a register line. A line is given as
      `fgets` returns it, with its trailing '\n' (the last line of the file
      may lack one); `Matches` depends on that newline. */
  function LineBuffer(line: string): seq<char> { line + [NUL] }

  /** A comment line of the register starts with '#'. */
  predicate IsComment(line: string) { line != [] && line[0] == '#' }

  /** A client-name line starts with "#$". */
  predicate IsNameLine(line: string) { |line| >= 2 && line[0] == '#' && line[1] == '$' }

  /** The name a client-name line gives: its "#$" and every non-letter
      blanked, then compressed (80 characters at most). */
  function NameOf(line: string): string
    requires IsNameLine(line)
  {
    var b := LineBuffer(line)[0 := ' '];
    Compressed(NonLettersBlanked(b[1 := ' ']), 80)
  }

  /** The letters of a text. */
  function Letters(t: string): (r: string)
    ensures |r| <= |t| && forall i :: 0 <= i < |r| ==> IsAlpha(r[i])
  {
    if t == [] then [] else (if IsAlpha(t[0]) then [t[0]] else []) + Letters(t[1..])
  }

  /** Compressing a text whose non-letters are blanked keeps its letters. */
  lemma {:induction false} CompressBlanked(t: string, b: string)
    requires |t| == |b|
    requires forall i :: 0 <= i < |t| ==> b[i] == if IsAlpha(t[i]) then t[i] else ' '
    ensures CompressText(b) == Letters(t)
  {
    if t != [] {
      CompressBlanked(t[1..], b[1..]);
    }
  }

  /** The buffer of a client-name line once its "#$" and its non-letters
      are blanked: as long as the line, with blanks where the line has
      non-letters. */
  lemma BlankedNameBuffer(line: string)
    requires IsNameLine(line)
    ensures var buf := LineBuffer(line);
            var bl := NonLettersBlanked(buf[0 := ' '][1 := ' ']);
            && StrLen(buf) >= 2 && StrLen(bl) == StrLen(buf)
            && forall i :: 0 <= i < StrLen(buf) ==>
                 bl[i] == if i < 2 then ' ' else if IsAlpha(buf[i]) then buf[i] else ' '
  {
    var buf := LineBuffer(line);
    assert buf[|line|] == NUL && buf[0] == '#' && buf[1] == '$';
    var n := StrLen(buf);
    assert n >= 2;
    var b := buf[0 := ' '][1 := ' '];
    assert b[..n] == [' ', ' '] + buf[2..n];
    StrLenAt(b, n);
    var bl := NonLettersBlanked(b);
    assert bl[..n] == NonLettersBlanked(b)[..n];
    StrLenAt(bl, n);
  }

  /** A client-name line names the client by the letters among its first
      80 characters after the "#$"; the name holds letters only. */
  lemma NameOfLetters(line: string)
    requires IsNameLine(line)
    ensures var t := CStr(LineBuffer(line));
            |t| >= 2 && NameOf(line) == Letters(t[2..if |t| < 80 then |t| else 80])
  {
    var buf := LineBuffer(line);
    var n := StrLen(buf);
    var bl := NonLettersBlanked(buf[0 := ' '][1 := ' ']);
    BlankedNameBuffer(line);
    var m := if n < 80 then n else 80;
    assert Limit(bl, 80) == m;
    var t := [' ', ' '] + buf[2..m];
    CompressBlanked(t, bl[..m]);
    assert Letters(t) == Letters(buf[2..m]) by {
      assert t[1..][1..] == buf[2..m];
    }
    assert CStr(buf)[2..m] == buf[2..m];
  }

  /** A register line that is not a comment matches the lowered address
      `a` when their first `min(|a|, strlen)` characters agree, the line
      lowered too: `strncmp(s1, s, l < strlen(s) ? l : strlen(s))`. */
  predicate Matches(a: string, line: string)
  {
    var s := Lower(CStr(LineBuffer(line)));
    var n := if |a| < |s| then |a| else |s|;
    a[..n] == s[..n]
  }

  /** Whether the address was found, and the client name then held. */
  datatype LookupResult = LookupResult(found: bool, held: Option<string>)

  /** The register lookup from line `i` on, holding the name of the last
      client-name line read (`None`: the caller's buffer is untouched). */
  function Lookup(register: seq<string>, a: string, i: nat, name: Option<string>): LookupResult
    decreases |register| - i
  {
    if i >= |register| then LookupResult(false, name)
    else if IsComment(register[i]) then
      Lookup(register, a, i + 1, if IsNameLine(register[i]) then Some(NameOf(register[i])) else name)
    else if Matches(a, register[i]) then LookupResult(true, name)
    else Lookup(register, a, i + 1, name)
  }

  /** The lookup finds the address exactly when some line from `i` on that
      is not a comment matches it. */
  lemma {:induction false} LookupFinds(register: seq<string>, a: string, i: nat, name: Option<string>)
    ensures Lookup(register, a, i, name).found <==>
      exists j :: i <= j < |register| && !IsComment(register[j]) && Matches(a, register[j])
    decreases |register| - i
  {
    if i < |register| && (IsComment(register[i]) || !Matches(a, register[i])) {
      var name' := if IsComment(register[i]) && IsNameLine(register[i]) then Some(NameOf(register[i])) else name;
      LookupFinds(register, a, i + 1, name');
    }
  }

  /** An empty address matches every line that is not a comment, so it is
      found exactly when the register has such a line. */
  lemma EmptyAddressMatches(register: seq<string>)
    ensures Lookup(register, [], 0, None).found <==> exists j :: 0 <= j < |register| && !IsComment(register[j])
  {
    LookupFinds(register, [], 0, None);
    assert forall j :: 0 <= j < |register| ==> Matches([], register[j]);
  }

  /** `CheckClient`: looks the lowered sender address up in the register
      (its lines are a parameter, each with the newline `fgets` keeps; the
      file is outside the model). Comment
      lines are skipped, except that a "#$" line sets the client name. It
      returns 1 when a line matches, with the client name of the last "#$"
      line before it (or the caller's, when there is none), and 0 with an
      empty client name otherwise. */
  method CheckClient(register: seq<string>, address: array<char>, clientName: array<char>) returns (r: int)
    requires NUL in address[..] && StrLen(address[..]) < 160
    requires 80 < clientName.Length && clientName != address
    modifies clientName
    ensures var res := Lookup(register, Lower(CStr(address[..])), 0, None);
            r == (if res.found then 1 else 0)
    ensures var res := Lookup(register, Lower(CStr(address[..])), 0, None);
            CStr(clientName[..]) == if !res.found then [] else if res.held.Some? then res.held.value else CStr(old(clientName[..]))
  {
    ghost var a := Lower(CStr(address[..]));
    var s1, l := LoweredCopy(address);
    ghost var held: Option<string> := None;
    var k := 0;
    while k < |register|
      invariant 0 <= k <= |register| && l <= s1.Length && s1[..l] == a
      invariant Lookup(register, a, k, held) == Lookup(register, a, 0, None)
      invariant held.Some? ==> CStr(clientName[..]) == held.value
      invariant held.None? ==> clientName[..] == old(clientName[..])
    {
      var m;
      m, held := CheckLine(register[k], s1, l, clientName, a, held, old(clientName[..]));
      if m {
        return 1;
      }
      k := k + 1;
    }
    clientName[0] := NUL;
    StrLenAt(clientName[..], 0);
    return 0;
  }

  /** One register line of `CheckClient`'s loop: whether it matches the
      address, and the client name held after it. */
  method CheckLine(line: string, s1: array<char>, l: nat, clientName: array<char>,
                   ghost a: string, ghost held: Option<string>, ghost name0: seq<char>)
      returns (m: bool, ghost held': Option<string>)
    requires l <= s1.Length && s1[..l] == a && 80 < clientName.Length && clientName != s1
    requires held.Some? ==> CStr(clientName[..]) == held.value
    requires held.None? ==> clientName[..] == name0
    modifies clientName
    ensures m == (!IsComment(line) && Matches(a, line))
    ensures held' == if IsNameLine(line) then Some(NameOf(line)) else held
    ensures held'.Some? ==> CStr(clientName[..]) == held'.value
    ensures held'.None? ==> clientName[..] == name0
  {
    var s := new char[|line| + 1](j requires 0 <= j <= |line| => if j < |line| then line[j] else NUL);
    assert s[..] == LineBuffer(line);
    held' := held;
    m := false;
    if s[0] == '#' {
      if s[1] == '$' {
        ReadClientName(s, clientName, line);
        held' := Some(NameOf(line));
      }
    } else {
      m := LineMatches(s1, l, s, a, line);
    }
  }

  /** `strcpy(s1, address); str2lower(s1); l = strlen(s1)` into a buffer
      of 160 characters. */
  method LoweredCopy(address: array<char>) returns (s1: array<char>, l: nat)
    requires NUL in address[..] && StrLen(address[..]) < 160
    ensures fresh(s1) && l <= s1.Length && s1[..l] == Lower(CStr(address[..]))
  {
    s1 := new char[160](j requires 0 <= j < 160 reads address => if j < StrLen(address[..]) then address[j] else NUL);
    ghost var s1init := s1[..];
    StrLenAt(s1init, StrLen(address[..]));
    assert CStr(s1init) == CStr(address[..]);
    Str2Lower(s1);
    LowerText(s1init);
    l := StrLen(s1[..]);
  }

  /** A client-name line: its "#$" and every non-letter are blanked and
      the rest compressed into the client name. */
  method ReadClientName(s: array<char>, clientName: array<char>, ghost line: string)
    requires s[..] == LineBuffer(line) && IsNameLine(line)
    requires 80 < clientName.Length && clientName != s
    modifies s, clientName
    ensures CStr(clientName[..]) == NameOf(line)
  {
    s[0] := ' ';
    s[1] := ' ';
    ghost var b := s[..];
    assert b == LineBuffer(line)[0 := ' '][1 := ' '] && b[|line|] == NUL;
    assert StrLen(b) <= |line|;
    BlankNonLetters(s);
    assert s[|line|] == NUL;
    Compress(clientName, s);
    CompressedProperties(s[..], 80);
    ghost var nm := NameOf(line);
    StrLenAt(clientName[..], |nm|);
    assert clientName[..][..|nm|] == nm;
  }

  /** A line that is not a comment: lowered and compared with the address,
      `strncmp(s1, s, l < strlen(s) ? l : strlen(s))`. */
  method LineMatches(s1: array<char>, l: nat, s: array<char>, ghost a: string, ghost line: string) returns (m: bool)
    requires l <= s1.Length && s1[..l] == a && s[..] == LineBuffer(line) && s != s1
    modifies s
    ensures m == Matches(a, line)
  {
    ghost var buf := s[..];
    assert NUL in buf by {
      assert buf[|line|] == NUL;
    }
    Str2Lower(s);
    LowerText(buf);
    var len := StrLen(s[..]);
    var n := if l < len then l else len;
    m := s1[..n] == s[..n];
  }

}
