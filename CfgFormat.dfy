/** The `.cfg` line-list configuration files that the two import commands
    read (vald/management/commands/import_default_config.py and
    vald/management/commands/import_persconf.py). The first data line holds
    the global parameters `wl_window,wl_ref,max_ion,max_exc`; every other
    line describes one line list,
        'path', priority, element_min, element_max, mergeable, 9 ranks, 'name'[, window]
    and a leading ';' marks the list disabled. This module holds what the two
    commands share; each command's own line parser and line loop are in its
    own module. */
module CfgFormat {
  import opened Wrappers
  import opened Text

  // ---------------------------------------------------------------------------
  // The global line
  // ---------------------------------------------------------------------------

  datatype GlobalParams = GlobalParams(wlWindow: real, wlRef: real, maxIon: int, maxExc: real)

  /** What `_parse_global_params` returns when a field does not parse. */
  const DefaultGlobals := GlobalParams(0.05, 5000.0, 9, 150.0)

  /** The values a configuration is created with: the global line's when
      there is one, and otherwise the defaults of the `.get` calls, which
      are the same four values. */
  function ConfigGlobals(global: Option<GlobalParams>): (r: GlobalParams)
    ensures global.Some? ==> r == global.value
    ensures global.None? ==> r == DefaultGlobals
  {
    if global.Some? then global.value else DefaultGlobals
  }

  /** The fields of the global line: `line.replace(' ', '').split(',')`. */
  function GlobalParts(line: string): (parts: seq<string>)
    ensures |parts| >= 1
  {
    SplitOn(RemoveChar(line, ' '), ',')
  }

  /** `_parse_global_params` (the same in both commands): each of the four
      fields is read when it is there and takes its default when the line
      has fewer fields; a field that is there but does not parse makes the
      whole result the defaults. Trailing dots of `wl_ref` are dropped
      first. The default of the first field is never used, as splitting
      always gives at least one field. */
  function ParseGlobalParams(line: string): GlobalParams
  {
    GlobalsOfParts(GlobalParts(line))
  }

  /** The four fields read from the pieces of the global line. */
  function GlobalsOfParts(parts: seq<string>): GlobalParams
  {
    var window := if |parts| > 0 then ParseFloat(parts[0]) else Some(0.05);
    var wlRef := if |parts| > 1 then ParseFloat(RStripChar(parts[1], '.')) else Some(5000.0);
    var maxIon := if |parts| > 2 then ParseInt(parts[2]) else Some(9);
    var maxExc := if |parts| > 3 then ParseFloat(parts[3]) else Some(150.0);
    if window.Some? && wlRef.Some? && maxIon.Some? && maxExc.Some? then
      GlobalParams(window.value, wlRef.value, maxIon.value, maxExc.value)
    else DefaultGlobals
  }

  /** A text joined from pieces free of `c` has no `c`. */
  lemma {:induction false} JoinAvoids(parts: seq<string>, sep: string, c: char)
    requires c !in sep && forall k :: 0 <= k < |parts| ==> c !in parts[k]
    ensures c !in Join(parts, sep)
    decreases |parts|
  {
    if |parts| > 1 {
      JoinAvoids(parts[1..], sep, c);
    }
  }

  /** A global line written as its fields joined by commas splits back into
      those fields. */
  lemma GlobalPartsOfFields(fields: seq<string>)
    requires |fields| >= 1
    requires forall k :: 0 <= k < |fields| ==> ',' !in fields[k] && ' ' !in fields[k]
    ensures GlobalParts(Join(fields, ",")) == fields
  {
    JoinAvoids(fields, ",", ' ');
    RemoveCharAbsent(Join(fields, ","), ' ');
    SplitJoin(fields, ',');
  }

  /** Writing the first one to four fields of a set of global parameters and
      reading the line gives those fields back, and the defaults for the
      fields left off. */
  lemma GlobalLineRoundTrip(fields: seq<string>, g: GlobalParams)
    requires 1 <= |fields| <= 4
    requires forall k :: 0 <= k < |fields| ==> ',' !in fields[k] && ' ' !in fields[k]
    requires ParseFloat(fields[0]) == Some(g.wlWindow)
    requires |fields| > 1 ==> !EndsWith(fields[1], ".") && ParseFloat(fields[1]) == Some(g.wlRef)
    requires |fields| > 2 ==> ParseInt(fields[2]) == Some(g.maxIon)
    requires |fields| > 3 ==> ParseFloat(fields[3]) == Some(g.maxExc)
    ensures ParseGlobalParams(Join(fields, ",")) ==
              GlobalParams(g.wlWindow, if |fields| > 1 then g.wlRef else 5000.0,
                           if |fields| > 2 then g.maxIon else 9, if |fields| > 3 then g.maxExc else 150.0)
  {
    GlobalPartsOfFields(fields);
    GlobalFieldsRead(fields, g);
  }

  /** The values of the fields that are there, and the defaults of the rest. */
  lemma GlobalFieldsRead(parts: seq<string>, g: GlobalParams)
    requires 1 <= |parts| <= 4
    requires ParseFloat(parts[0]) == Some(g.wlWindow)
    requires |parts| > 1 ==> !EndsWith(parts[1], ".") && ParseFloat(parts[1]) == Some(g.wlRef)
    requires |parts| > 2 ==> ParseInt(parts[2]) == Some(g.maxIon)
    requires |parts| > 3 ==> ParseFloat(parts[3]) == Some(g.maxExc)
    ensures GlobalsOfParts(parts) ==
              GlobalParams(g.wlWindow, if |parts| > 1 then g.wlRef else 5000.0,
                           if |parts| > 2 then g.maxIon else 9, if |parts| > 3 then g.maxExc else 150.0)
  {
    if |parts| > 1 {
      assert parts[1] != [] ==> parts[1][|parts[1]| - 1] != '.';
      assert RStripChar(parts[1], '.') == parts[1];
    }
  }

  /** One field that is there but does not parse resets all four. */
  lemma GlobalLineResets(line: string)
    ensures var parts := GlobalParts(line);
            ParseFloat(parts[0]).None?
            || (|parts| > 1 && ParseFloat(RStripChar(parts[1], '.')).None?)
            || (|parts| > 2 && ParseInt(parts[2]).None?)
            || (|parts| > 3 && ParseFloat(parts[3]).None?)
            ==> ParseGlobalParams(line) == DefaultGlobals
  {
  }

  /** Spaces anywhere in the global line, and fields after the fourth, make
      no difference. */
  lemma GlobalLineIgnores(fields: seq<string>, extra: seq<string>)
    requires |fields| == 4
    requires forall k :: 0 <= k < |fields| + |extra| ==> ',' !in (fields + extra)[k] && ' ' !in (fields + extra)[k]
    ensures ParseGlobalParams(Join(fields + extra, ",")) == ParseGlobalParams(Join(fields, ","))
  {
    assert forall k :: 0 <= k < 4 ==> (fields + extra)[k] == fields[k];
    GlobalPartsOfFields(fields);
    GlobalPartsOfFields(fields + extra);
  }

  // ---------------------------------------------------------------------------
  // Line-list lines
  // ---------------------------------------------------------------------------

  /** A parsed line-list line. `ranks` are the nine ranks in file order:
      wavelength, gf, radiative, Stark, Waals, Landé, term, extended van der
      Waals, Zeeman. */
  datatype Entry = Entry(path: string, name: string, priority: int, elementMin: int, elementMax: int,
                         mergeable: int, ranks: seq<int>, enabled: bool, replacementWindow: real)

  /** The outcome of parsing a line-list line: an entry, Python's `None`, or
      the `ValueError` of `float()` on the window after the name, which is
      raised outside the `try` and so escapes the parser. */
  datatype EntryResult = Parsed(entry: Entry) | NoEntry | Raises

  /** A disabled entry is the entry line after a ';' (the text after the ';'
      stripped), an enabled one the line itself. */
  function EntryBody(line: string): (r: (bool, string))
    ensures r.0 <==> !StartsWith(line, ";")
  {
    if StartsWith(line, ";") then (false, Strip(line[1..])) else (true, line)
  }

  /** `re.match(r"'([^']+)'", line)`: the quoted path at the start of the
      line and the index just after its closing quote. */
  function QuotedPath(line: string): (r: Option<(string, nat)>)
    ensures r.Some? ==> var (path, end) := r.value;
              && end == |path| + 2 <= |line| && path != [] && '\'' !in path
              && line[0] == '\'' && line[1..end - 1] == path && line[end - 1] == '\''
  {
    if line == [] || line[0] != '\'' then None
    else
      var j := IndexOf(line[1..], '\'');
      if j == 0 || j == |line| - 1 then None
      else Some((line[1..j + 1], j + 2))
  }

  /** Index of the last `c` in `s`, or `|s|` when there is none. */
  function LastIndexOf(s: string, c: char): (i: nat)
    ensures i <= |s|
    ensures i < |s| ==> s[i] == c && c !in s[i + 1..]
    ensures i == |s| ==> c !in s
    decreases |s|
  {
    if s == [] then 0
    else if s[|s| - 1] == c then |s| - 1
    else
      var j := LastIndexOf(s[..|s| - 1], c);
      assert s == s[..|s| - 1] + [s[|s| - 1]];
      if j == |s| - 1 then |s| else j
  }

  /** `[\d.]`. */
  predicate IsDigitOrDot(c: char) { IsDigit(c) || c == '.' }

  /** The group of `\s*,\s*([\d.]+)` when all of `t` matches it. */
  function WindowText(t: string): (w: Option<string>)
    ensures w.Some? ==> w.value != [] && forall k :: 0 <= k < |w.value| ==> IsDigitOrDot(w.value[k])
  {
    var u := LStrip(t);
    if u != [] && u[0] == ',' then
      var v := LStrip(u[1..]);
      if v != [] && forall k :: 0 <= k < |v| ==> IsDigitOrDot(v[k]) then Some(v) else None
    else None
  }

  /** Where the name's match starts, the name, and the window text. */
  datatype NameMatch = NameMatch(start: nat, name: string, window: Option<string>)

  /** `re.search(r"'([^']+)'(?:\s*,\s*([\d.]+))?$", rest)`. The name cannot
      hold a quote and nothing after the match can, so the only candidate is
      the text between the last two quotes; it matches when it is not empty
      and what follows the last quote is nothing or a comma and a window. */
  function FindName(rest: string): (m: Option<NameMatch>)
    ensures m.Some? ==> var NameMatch(p, name, _) := m.value;
              && p + |name| + 2 <= |rest| && name != [] && '\'' !in name
              && rest[p] == '\'' && rest[p + 1..p + 1 + |name|] == name && rest[p + 1 + |name|] == '\''
              && '\'' !in rest[p + |name| + 2..]
  {
    var q := LastIndexOf(rest, '\'');
    if q == |rest| then None
    else
      var p := LastIndexOf(rest[..q], '\'');
      if p + 1 >= q then None
      else
        var tail := rest[q + 1..];
        if tail == [] then Some(NameMatch(p, rest[p + 1..q], None))
        else
          match WindowText(tail)
          case Some(w) => Some(NameMatch(p, rest[p + 1..q], Some(w)))
          case None => None
  }

  /** `path.split('/')[-1]`. */
  function LastSegment(path: string): string
  {
    var parts := SplitOn(path, '/');
    parts[|parts| - 1]
  }

  /** The number of leading decimal digits. */
  function DigitRun(s: string): (n: nat)
    ensures n <= |s| && AllDigits(s[..n]) && (n < |s| ==> !IsDigit(s[n]))
  {
    if s == [] || !IsDigit(s[0]) then 0
    else
      var n := 1 + DigitRun(s[1..]);
      assert s[..n] == [s[0]] + s[1..][..n - 1];
      n
  }

  /** The length of the match of `-?\d+(?:\.\d+)?` at the start of `s`, or 0. */
  function NumberAt(s: string): (n: nat)
    ensures n <= |s|
  {
    var sign := if |s| > 1 && s[0] == '-' && IsDigit(s[1]) then 1 else 0;
    if sign == 0 && (s == [] || !IsDigit(s[0])) then 0
    else
      var d := sign + DigitRun(s[sign..]);
      if d + 1 < |s| && s[d] == '.' && IsDigit(s[d + 1]) then d + 1 + DigitRun(s[d + 1..]) else d
  }

  /** `re.findall(r'-?\d+(?:\.\d+)?', s)`: the matches, left to right, none
      overlapping. */
  function NumberTokens(s: string): (r: seq<string>)
    decreases |s|
  {
    if s == [] then []
    else
      var n := NumberAt(s);
      if n == 0 then NumberTokens(s[1..]) else [s[..n]] + NumberTokens(s[n..])
  }

  /** Each text as a Python `int`, or `None` when one of them is not one. */
  function ParseInts(ts: seq<string>): (r: Option<seq<int>>)
    ensures r.Some? <==> forall k :: 0 <= k < |ts| ==> ParseInt(ts[k]).Some?
    ensures r.Some? ==> |r.value| == |ts| && forall k :: 0 <= k < |ts| ==> ParseInt(ts[k]) == Some(r.value[k])
  {
    if forall k :: 0 <= k < |ts| ==> ParseInt(ts[k]).Some? then
      Some(seq(|ts|, k requires 0 <= k < |ts| => ParseInt(ts[k]).value))
    else None
  }

  /** The part of `_parse_linelist_entry` after the path, which both commands
      share: the trailing quoted name and its optional window (0.05 when
      there is none; the last path segment names a list without a quoted
      name), then the numbers before the name, of which there must be at
      least 13: priority, element_min, element_max, mergeable and the nine
      ranks. Numbers after the thirteenth are not looked at. */
  function EntryFromRest(path: string, rest: string, enabled: bool): EntryResult
  {
    var m := FindName(rest);
    var name := if m.Some? then m.value.name else LastSegment(path);
    var window := if m.Some? && m.value.window.Some? then ParseFloat(m.value.window.value) else Some(0.05);
    var numbersText := if m.Some? then RStripChar(Strip(rest[..m.value.start]), ',') else rest;
    if window.None? then Raises
    else EntryOfNumbers(path, name, NumberTokens(numbersText), enabled, window.value)
  }

  /** The entry from the numbers found before the name: `None` with fewer
      than 13 or with a non-integer among the first 13. */
  function EntryOfNumbers(path: string, name: string, numbers: seq<string>, enabled: bool, window: real): EntryResult
  {
    if |numbers| < 13 then NoEntry
    else
      match ParseInts(numbers[..13])
      case None => NoEntry
      case Some(ns) => Parsed(Entry(path, name, ns[0], ns[1], ns[2], ns[3], ns[4..13], enabled, window))
  }

  /** What an entry is made of: its name is the quoted name when there is
      one and the file name otherwise, the thirteen numbers are read in
      order into priority, element range, mergeable and the nine ranks, and
      the window is the one written after the name or 0.05. */
  lemma EntryFields(path: string, rest: string, enabled: bool)
    ensures var r := EntryFromRest(path, rest, enabled);
            var m := FindName(rest);
            var numbers := NumberTokens(if m.Some? then RStripChar(Strip(rest[..m.value.start]), ',') else rest);
            r.Parsed? ==>
              && r.entry.path == path && r.entry.enabled == enabled
              && r.entry.name == (if m.Some? then m.value.name else LastSegment(path))
              && |numbers| >= 13 && |r.entry.ranks| == 9
              && ParseInts(numbers[..13])
                 == Some([r.entry.priority, r.entry.elementMin, r.entry.elementMax, r.entry.mergeable] + r.entry.ranks)
              && (if m.Some? && m.value.window.Some? then ParseFloat(m.value.window.value) == Some(r.entry.replacementWindow)
                  else r.entry.replacementWindow == 0.05)
  {
    var m := FindName(rest);
    var name := if m.Some? then m.value.name else LastSegment(path);
    var window := if m.Some? && m.value.window.Some? then ParseFloat(m.value.window.value) else Some(0.05);
    var numbers := NumberTokens(if m.Some? then RStripChar(Strip(rest[..m.value.start]), ',') else rest);
    if window.Some? {
      assert EntryFromRest(path, rest, enabled) == EntryOfNumbers(path, name, numbers, enabled, window.value);
      NumberFields(path, name, numbers, enabled, window.value);
    }
  }

  /** The fields of an entry read from its numbers: the first thirteen,
      read as integers, are priority, element range, mergeable and the
      nine ranks, in that order. */
  lemma NumberFields(path: string, name: string, numbers: seq<string>, enabled: bool, window: real)
    ensures var r := EntryOfNumbers(path, name, numbers, enabled, window);
            r.Parsed? ==>
              && r.entry.path == path && r.entry.enabled == enabled && r.entry.name == name
              && r.entry.replacementWindow == window
              && |numbers| >= 13 && |r.entry.ranks| == 9
              && ParseInts(numbers[..13])
                 == Some([r.entry.priority, r.entry.elementMin, r.entry.elementMax, r.entry.mergeable] + r.entry.ranks)
  {
    if |numbers| >= 13 && ParseInts(numbers[..13]).Some? {
      var ns := ParseInts(numbers[..13]).value;
      var e := EntryOfNumbers(path, name, numbers, enabled, window).entry;
      assert e == Entry(path, name, ns[0], ns[1], ns[2], ns[3], ns[4..13], enabled, window);
      FourAndNine(ns);
    }
  }

  /** Thirteen numbers are the first four and the nine after them. */
  lemma FourAndNine(ns: seq<int>)
    requires |ns| == 13
    ensures [ns[0], ns[1], ns[2], ns[3]] + ns[4..13] == ns
  {
    assert ns == ns[..4] + ns[4..13];
    assert ns[..4] == [ns[0], ns[1], ns[2], ns[3]];
  }

  /** No entry comes out of a line with fewer than 13 numbers, or with a
      number among the first 13 that is not an integer; the `ValueError`
      comes exactly from a window after the name that is not a float. */
  lemma EntryRejects(path: string, rest: string, enabled: bool)
    ensures var r := EntryFromRest(path, rest, enabled);
            var m := FindName(rest);
            var numbers := NumberTokens(if m.Some? then RStripChar(Strip(rest[..m.value.start]), ',') else rest);
            && (r == Raises <==> m.Some? && m.value.window.Some? && ParseFloat(m.value.window.value).None?)
            && (r != Raises ==>
                  (r == NoEntry <==> |numbers| < 13 || exists k :: 0 <= k < 13 && ParseInt(numbers[k]).None?))
  {
    var m := FindName(rest);
    var numbers := NumberTokens(if m.Some? then RStripChar(Strip(rest[..m.value.start]), ',') else rest);
    var name := if m.Some? then m.value.name else LastSegment(path);
    var window := if m.Some? && m.value.window.Some? then ParseFloat(m.value.window.value) else Some(0.05);
    if window.Some? {
      NumbersReject(path, name, numbers, enabled, window.value);
    }
  }

  /** The numbers give no entry exactly when there are fewer than 13 or
      one of the first 13 is not an integer; they never raise. */
  lemma NumbersReject(path: string, name: string, numbers: seq<string>, enabled: bool, window: real)
    ensures EntryOfNumbers(path, name, numbers, enabled, window) != Raises
    ensures EntryOfNumbers(path, name, numbers, enabled, window) == NoEntry <==>
              |numbers| < 13 || exists k :: 0 <= k < 13 && ParseInt(numbers[k]).None?
  {
    if |numbers| >= 13 {
      var ts := numbers[..13];
      assert forall k :: 0 <= k < 13 ==> ts[k] == numbers[k];
    }
  }

  /** The text of a number followed by a comma or the end is one match. */
  lemma {:induction false} NumberAtInt(n: int, rest: string)
    requires rest == [] || rest[0] == ','
    ensures NumberAt(IntToString(n) + rest) == |IntToString(n)|
  {
    var d := NatToString(if n < 0 then -n else n);
    assert IntToString(n) + rest == (if n < 0 then "-" else "") + d + rest;
    NumberAtSigned(n < 0, d, rest);
  }

  /** Digits, with or without a minus sign, followed by a comma or the end
      are one match. */
  lemma NumberAtSigned(neg: bool, d: string, rest: string)
    requires IsDigitString(d) && (rest == [] || rest[0] == ',')
    ensures NumberAt((if neg then "-" else "") + d + rest) == (if neg then 1 else 0) + |d|
  {
    var s := (if neg then "-" else "") + d + rest;
    var sign := if neg then 1 else 0;
    assert s[sign..] == d + rest;
    DigitRunOf(d, rest);
    assert IsDigit(s[sign]);
  }

  /** The digit run of digits followed by something that is not a digit. */
  lemma {:induction false} DigitRunOf(d: string, rest: string)
    requires AllDigits(d) && (rest == [] || !IsDigit(rest[0]))
    ensures DigitRun(d + rest) == |d|
    decreases |d|
  {
    if d != [] {
      assert (d + rest)[1..] == d[1..] + rest;
      DigitRunOf(d[1..], rest);
    } else {
      assert d + rest == rest;
    }
  }

  /** A comma and a blank hold no number. */
  lemma NumberTokensSkipSeparator(rest: string)
    ensures NumberTokens(", " + rest) == NumberTokens(rest)
  {
    var s := ", " + rest;
    assert NumberAt(s) == 0;
    assert s[1..] == " " + rest;
    assert NumberAt(s[1..]) == 0;
    assert s[1..][1..] == rest;
  }

  /** Reading the numbers of integers written with ", " between them gives
      back their texts. */
  lemma {:induction false} NumberTokensOfInts(ns: seq<int>)
    ensures NumberTokens(Join(IntStrings(ns), ", ")) == IntStrings(ns)
    decreases |ns|
  {
    var ts := IntStrings(ns);
    if |ns| == 1 {
      LeadingInt(ns[0], []);
      assert Join(ts, ", ") == IntToString(ns[0]) + [];
    } else if |ns| > 1 {
      var tail := Join(IntStrings(ns[1..]), ", ");
      assert IntStrings(ns)[1..] == IntStrings(ns[1..]);
      assert Join(ts, ", ") == IntToString(ns[0]) + (", " + tail);
      LeadingInt(ns[0], ", " + tail);
      NumberTokensSkipSeparator(tail);
      NumberTokensOfInts(ns[1..]);
      assert ts == [IntToString(ns[0])] + IntStrings(ns[1..]);
    }
  }

  /** An integer's text at the front, followed by nothing or a comma, is
      read as the first number. */
  lemma LeadingInt(n: int, rest: string)
    requires rest == [] || rest[0] == ','
    ensures NumberTokens(IntToString(n) + rest) == [IntToString(n)] + NumberTokens(rest)
  {
    var s := IntToString(n) + rest;
    NumberAtInt(n, rest);
    assert s[..|IntToString(n)|] == IntToString(n);
    assert s[|IntToString(n)|..] == rest;
  }

  /** The thirteen numbers of an entry, in the order the file gives them. */
  function EntryNumbers(e: Entry): (ns: seq<int>)
    ensures |ns| == 4 + |e.ranks|
  {
    [e.priority, e.elementMin, e.elementMax, e.mergeable] + e.ranks
  }

  /** The part of an entry line after the path: the numbers with ", "
      between them, then the quoted name. */
  function EntryRest(e: Entry): string
  {
    Join(IntStrings(EntryNumbers(e)), ", ") + ", '" + e.name + "'"
  }

  /** The last position of `c` in a text that has none after it. */
  lemma {:induction false} LastIndexOfBefore(a: string, c: char, b: string)
    requires c !in b
    ensures LastIndexOf(a + [c] + b, c) == |a|
    decreases |b|
  {
    var s := a + [c] + b;
    if b != [] {
      assert s[..|s| - 1] == a + [c] + b[..|b| - 1];
      assert s[|s| - 1] == b[|b| - 1];
      LastIndexOfBefore(a, c, b[..|b| - 1]);
    }
  }

  /** Stripping "x, " where x has no blank at either end leaves "x,". */
  lemma StripCommaBlank(x: string)
    requires x != [] && !IsSpace(x[0]) && !IsSpace(x[|x| - 1])
    ensures Strip(x + ", ") == x + ","
  {
    var s := x + ", ";
    assert s[..|s| - 1] == x + ",";
    assert RStrip(x + ",") == x + ",";
    assert RStrip(s) == x + ",";
    StripIdentity(x + ",");
  }

  /** The text before an entry's name, stripped and without its trailing
      comma, is the numbers' text. */
  lemma StripCommaBlankBack(x: string)
    requires x != [] && !IsSpace(x[0]) && !IsSpace(x[|x| - 1]) && x[|x| - 1] != ','
    ensures RStripChar(Strip(x + ", "), ',') == x
  {
    StripCommaBlank(x);
    assert (x + ",")[..|x + ","| - 1] == x;
  }

  /** The first and last characters of an integer's text are not blanks. */
  lemma IntTextEnds(n: int)
    ensures IntToString(n) != [] && !IsSpace(IntToString(n)[0]) && !IsSpace(IntToString(n)[|IntToString(n)| - 1])
    ensures IsDigit(IntToString(n)[|IntToString(n)| - 1])
  {
    IntToStringChars(n);
    if n < 0 {
      assert IntToString(n)[|IntToString(n)| - 1] == NatToString(-n)[|NatToString(-n)| - 1];
    }
  }

  /** Joined integer texts begin and end without a blank, end in a digit
      and hold no quote. */
  lemma {:induction false} JoinedIntsEnds(ns: seq<int>)
    requires ns != []
    ensures var j := Join(IntStrings(ns), ", ");
            && j != [] && !IsSpace(j[0]) && !IsSpace(j[|j| - 1]) && IsDigit(j[|j| - 1]) && '\'' !in j
    decreases |ns|
  {
    var ts := IntStrings(ns);
    forall k | 0 <= k < |ts| ensures '\'' !in ts[k] {
      IntToStringChars(ns[k]);
    }
    JoinAvoids(ts, ", ", '\'');
    IntTextEnds(ns[0]);
    if |ns| > 1 {
      assert IntStrings(ns)[1..] == IntStrings(ns[1..]);
      JoinedIntsEnds(ns[1..]);
      var tail := Join(IntStrings(ns[1..]), ", ");
      assert Join(ts, ", ") == ts[0] + ", " + tail;
      assert Join(ts, ", ")[0] == ts[0][0];
      assert Join(ts, ", ")[|Join(ts, ", ")| - 1] == tail[|tail| - 1];
    }
  }

  /** An entry as a line of a `.cfg` file: a ';' when it is disabled, the
      quoted path, then its numbers and quoted name. */
  function EntryLine(e: Entry): string
  {
    (if e.enabled then "" else ";") + QuotedEntryLine(e)
  }

  /** The line of an entry without its ';'. */
  function QuotedEntryLine(e: Entry): string
  {
    "'" + e.path + "', " + EntryRest(e)
  }

  /** Joined integer texts start with a digit or a minus sign. */
  lemma JoinedIntsStart(ns: seq<int>)
    requires ns != []
    ensures var j := Join(IntStrings(ns), ", ");
            j != [] && (IsDigit(j[0]) || j[0] == '-')
  {
    var ts := IntStrings(ns);
    IntTextEnds(ns[0]);
    IntToStringChars(ns[0]);
    if |ns| > 1 {
      assert Join(ts, ", ") == ts[0] + ", " + Join(ts[1..], ", ");
    }
  }

  /** The text after an entry's path begins and ends with no blank, and
      begins with no comma. */
  lemma EntryRestEnds(e: Entry)
    requires |e.ranks| == 9
    ensures var r := EntryRest(e);
            r != [] && !IsSpace(r[0]) && r[0] != ',' && r[|r| - 1] == '\''
  {
    var ns := EntryNumbers(e);
    JoinedIntsStart(ns);
    var j := Join(IntStrings(ns), ", ");
    assert EntryRest(e)[0] == j[0];
  }

  /** The body of an entry line after an optional ';' is the quoted line,
      and it carries the flag. */
  lemma EntryLineBody(e: Entry)
    requires |e.ranks| == 9
    ensures EntryBody(EntryLine(e)) == (e.enabled, QuotedEntryLine(e))
  {
    var q := QuotedEntryLine(e);
    EntryRestEnds(e);
    assert q[0] == '\'' && q[|q| - 1] == '\'';
    if e.enabled {
      assert EntryLine(e) == q;
      assert !StartsWith(q, ";");
    } else {
      assert EntryLine(e) == ";" + q;
      assert EntryLine(e)[1..] == q;
      StripIdentity(q);
    }
  }

  /** The quoted path of an entry line is the entry's path, and the text
      after it strips as the parsers need. */
  lemma EntryLinePath(e: Entry)
    requires |e.ranks| == 9 && e.path != [] && '\'' !in e.path
    ensures QuotedPath(QuotedEntryLine(e)) == Some((e.path, |e.path| + 2))
    ensures QuotedEntryLine(e)[|e.path| + 2..] == ", " + EntryRest(e)
  {
    var r := EntryRest(e);
    var q := QuotedEntryLine(e);
    assert q[1..] == e.path + ['\''] + (", " + r);
    IndexOfAfterPrefix(e.path, ", " + r, '\'');
    assert IndexOf(q[1..], '\'') == |e.path|;
    assert q[1..|e.path| + 1] == e.path;
  }

  /** ", " before an entry's rest survives stripping; one blank does not. */
  lemma EntryRestStrips(e: Entry)
    requires |e.ranks| == 9
    ensures Strip(", " + EntryRest(e)) == ", " + EntryRest(e)
    ensures Strip(" " + EntryRest(e)) == EntryRest(e)
  {
    var r := EntryRest(e);
    EntryRestEnds(e);
    StripIdentity(", " + r);
    StripIdentity(r);
    assert RStrip(" " + r) == " " + r;
    assert (" " + r)[1..] == r;
  }

  /** An entry written as its numbers, with ", " between them, and its
      quoted name reads back as the entry, its window the default 0.05,
      as long as the name is not empty and holds no quote. */
  lemma EntryRestRoundTrip(e: Entry)
    requires |e.ranks| == 9 && e.name != [] && '\'' !in e.name && e.replacementWindow == 0.05
    ensures EntryFromRest(e.path, EntryRest(e), e.enabled) == Parsed(e)
  {
    var ns := EntryNumbers(e);
    var j := Join(IntStrings(ns), ", ");
    JoinedIntsEnds(ns);
    NameAfterNumbers(j, e.name, EntryRest(e));
    EntryFromNamedRest(e.path, EntryRest(e), e.enabled, |j| + 2, e.name, j);
    NumberTokensOfInts(ns);
    EntryOfIntTexts(e);
  }

  /** A rest whose name is found, with no window, after a numbers' text
      gives the entry of those numbers, with window 0.05. */
  lemma EntryFromNamedRest(path: string, rest: string, enabled: bool, start: nat, name: string, numbersText: string)
    requires FindName(rest) == Some(NameMatch(start, name, None))
    requires start <= |rest| && RStripChar(Strip(rest[..start]), ',') == numbersText
    ensures EntryFromRest(path, rest, enabled) == EntryOfNumbers(path, name, NumberTokens(numbersText), enabled, 0.05)
  {
  }

  /** In the text after an entry's path, a numbers' text `j` that begins
      and ends with no blank, ends in a digit and holds no quote, and then
      the quoted name: the name is found, with no window, and what comes
      before it is `j`. */
  lemma NameAfterNumbers(j: string, name: string, rest: string)
    requires rest == j + ", '" + name + "'"
    requires j != [] && !IsSpace(j[0]) && !IsSpace(j[|j| - 1]) && IsDigit(j[|j| - 1]) && '\'' !in j
    requires name != [] && '\'' !in name
    ensures FindName(rest) == Some(NameMatch(|j| + 2, name, None))
    ensures RStripChar(Strip(rest[..|j| + 2]), ',') == j
  {
    var pre := j + ", ";
    assert rest == pre + ("'" + name + "'");
    assert rest == pre + "'" + name + "'";
    FindQuotedName(pre, name);
    assert rest[..|pre|] == pre;
    StripCommaBlankBack(j);
  }

  /** A text without quotes followed by a quoted name: the name is found,
      with no window, right after the text. */
  lemma FindQuotedName(pre: string, name: string)
    requires '\'' !in pre && name != [] && '\'' !in name
    ensures FindName(pre + "'" + name + "'") == Some(NameMatch(|pre|, name, None))
  {
    var rest := pre + "'" + name + "'";
    assert rest == (pre + "'" + name) + ['\''] + [];
    LastIndexOfBefore(pre + "'" + name, '\'', []);
    var q := |rest| - 1;
    assert rest[..q] == pre + ['\''] + name;
    LastIndexOfBefore(pre, '\'', name);
    assert rest[q + 1..] == [];
    assert rest[|pre| + 1..q] == name;
  }

  /** The texts of an entry's thirteen numbers read back as the entry. */
  lemma EntryOfIntTexts(e: Entry)
    requires |e.ranks| == 9
    ensures EntryOfNumbers(e.path, e.name, IntStrings(EntryNumbers(e)), e.enabled, e.replacementWindow) == Parsed(e)
  {
    var ns := EntryNumbers(e);
    var ts := IntStrings(ns);
    assert ts[..13] == ts;
    forall k | 0 <= k < 13 ensures ParseInt(ts[k]) == Some(ns[k]) {
      ParseIntOfIntToString(ns[k]);
    }
    assert ParseInts(ts).value == ns;
    assert ns[4..13] == e.ranks;
  }

  // ---------------------------------------------------------------------------
  // The loop over the lines of a file
  // ---------------------------------------------------------------------------

  /** How a command reads the stripped lines of a file: the lines it passes
      over, the lines that become the global line while there is none, and
      its parsers of the global line and of line-list lines. */
  datatype Reader = Reader(skipped: string -> bool, isGlobal: string -> bool,
                           parseGlobal: string -> GlobalParams, parseEntry: string -> EntryResult)

  /** A reader whose passed-over and global lines never parse as entries. */
  ghost predicate EntriesApart(rd: Reader)
  {
    forall t :: rd.skipped(t) || rd.isGlobal(t) ==> rd.parseEntry(t) == NoEntry
  }

  /** What the lines read so far have given. */
  datatype Contents = Contents(global: Option<GlobalParams>, entries: seq<Entry>)

  /** One turn of the loop over the stripped line `t`. */
  function Step(rd: Reader, c: Contents, t: string): Result<Contents, string>
  {
    if rd.skipped(t) then Success(c)
    else if c.global.None? && rd.isGlobal(t) then Success(Contents(Some(rd.parseGlobal(t)), c.entries))
    else
      match rd.parseEntry(t)
      case Parsed(e) => Success(Contents(c.global, c.entries + [e]))
      case NoEntry => Success(c)
      case Raises => Failure("ValueError")
  }

  /** The loop over all (stripped) lines: a `ValueError` ends it. */
  function ScanLines(rd: Reader, ts: seq<string>): Result<Contents, string>
  {
    if ts == [] then Success(Contents(None, []))
    else
      match ScanLines(rd, ts[..|ts| - 1])
      case Failure(err) => Failure(err)
      case Success(c) => Step(rd, c, ts[|ts| - 1])
  }

  /** The loop of `handle` in import_default_config.py and of
      `_parse_cfg_file` in import_persconf.py: each stripped line is passed
      over, taken as the global line, or parsed as a line-list entry, which
      is kept when there is one. */
  method ReadLines(rd: Reader, lines: seq<string>) returns (r: Result<Contents, string>)
    ensures r.Success? ==> r == ScanLines(rd, StripAll(lines))
    ensures r.Failure? ==> r == ScanLines(rd, StripAll(lines)) && r.error == "ValueError"
  {
    ghost var ts := StripAll(lines);
    var contents := Contents(None, []);
    var i := 0;
    while i < |lines|
      invariant i <= |lines|
      invariant ScanLines(rd, ts[..i]) == Success(contents)
    {
      var next := ReadNextLine(rd, ts, lines, i, contents);
      if next.Failure? {
        return next;
      }
      contents := next.value;
      i := i + 1;
    }
    assert ts[..i] == ts;
    r := Success(contents);
  }

  /** One pass of the loop: line `i`, stripped, read after the lines before it. */
  method ReadNextLine(rd: Reader, ghost ts: seq<string>, lines: seq<string>, i: nat, contents: Contents)
    returns (next: Result<Contents, string>)
    requires ts == StripAll(lines) && i < |lines| && ScanLines(rd, ts[..i]) == Success(contents)
    ensures next == ScanLines(rd, ts[..i + 1])
    ensures next.Failure? ==> next == ScanLines(rd, ts) && next.error == "ValueError"
  {
    var line := Strip(lines[i]);
    ScanNext(rd, ts, i, contents);
    next := ReadLine(rd, contents, line);
    if next.Failure? {
      FailureStays(rd, ts, i + 1);
    }
  }

  /** One more line read is one more step. */
  lemma ScanNext(rd: Reader, ts: seq<string>, i: nat, c: Contents)
    requires i < |ts| && ScanLines(rd, ts[..i]) == Success(c)
    ensures ScanLines(rd, ts[..i + 1]) == Step(rd, c, ts[i])
  {
    assert ts[..i + 1][..i] == ts[..i];
  }

  /** The body of the loop, on one stripped line. */
  method ReadLine(rd: Reader, contents: Contents, line: string) returns (r: Result<Contents, string>)
    ensures r == Step(rd, contents, line)
    ensures r.Failure? ==> r.error == "ValueError"
  {
    if rd.skipped(line) {
      return Success(contents);
    }
    if contents.global.None? && rd.isGlobal(line) {
      return Success(Contents(Some(rd.parseGlobal(line)), contents.entries));
    }
    var entry := rd.parseEntry(line);
    if entry.Raises? {
      return Failure("ValueError");
    }
    if entry.Parsed? {
      return Success(Contents(contents.global, contents.entries + [entry.entry]));
    }
    return Success(contents);
  }

  /** A `ValueError` in a first part of the lines is the result. */
  lemma {:induction false} FailureStays(rd: Reader, ts: seq<string>, k: nat)
    requires k <= |ts| && ScanLines(rd, ts[..k]) == Failure("ValueError")
    ensures ScanLines(rd, ts) == Failure("ValueError")
    decreases |ts|
  {
    if k == |ts| {
      assert ts[..k] == ts;
    } else {
      var init := ts[..|ts| - 1];
      assert init[..k] == ts[..k];
      FailureStays(rd, init, k);
    }
  }

  /** The parsed entries of all lines, in file order. */
  function ParsedEntries(rd: Reader, ts: seq<string>): seq<Entry>
  {
    if ts == [] then []
    else
      ParsedEntries(rd, ts[..|ts| - 1])
      + match rd.parseEntry(ts[|ts| - 1]) { case Parsed(e) => [e] case _ => [] }
  }

  /** When passed-over and global lines never parse as entries, the entries
      are those of every line that parses as one, wherever it stands, in
      file order; and the loop fails exactly when some line raises. */
  lemma {:induction false} ScanEntries(rd: Reader, ts: seq<string>)
    requires EntriesApart(rd)
    ensures ScanLines(rd, ts).Failure? <==> exists i :: 0 <= i < |ts| && rd.parseEntry(ts[i]) == Raises
    ensures ScanLines(rd, ts).Success? ==> ScanLines(rd, ts).value.entries == ParsedEntries(rd, ts)
    decreases |ts|
  {
    if ts != [] {
      var init := ts[..|ts| - 1];
      ScanEntries(rd, init);
      assert forall i :: 0 <= i < |init| ==> init[i] == ts[i];
      if ScanLines(rd, init).Failure? {
        var i :| 0 <= i < |init| && rd.parseEntry(init[i]) == Raises;
        assert rd.parseEntry(ts[i]) == Raises;
      }
    }
  }

  /** Line `i` can be the global line. */
  predicate GlobalAt(rd: Reader, ts: seq<string>, i: nat)
    requires i < |ts|
  {
    !rd.skipped(ts[i]) && rd.isGlobal(ts[i])
  }

  /** The global parameters come from the first line that can be the global
      line, and there are none when no line can be. */
  lemma {:induction false} GlobalFromFirstCandidate(rd: Reader, ts: seq<string>)
    requires ScanLines(rd, ts).Success?
    ensures ScanLines(rd, ts).value.global.None? <==> forall i :: 0 <= i < |ts| ==> !GlobalAt(rd, ts, i)
    ensures ScanLines(rd, ts).value.global.Some? ==>
              exists i :: 0 <= i < |ts| && GlobalAt(rd, ts, i) && (forall j :: 0 <= j < i ==> !GlobalAt(rd, ts, j))
                          && ScanLines(rd, ts).value.global == Some(rd.parseGlobal(ts[i]))
    decreases |ts|
  {
    if ts != [] {
      var init := ts[..|ts| - 1];
      var last := |ts| - 1;
      assert forall i :: 0 <= i < |init| ==> init[i] == ts[i];
      assert ScanLines(rd, init).Success?;
      GlobalFromFirstCandidate(rd, init);
      assert forall j :: 0 <= j < last ==> GlobalAt(rd, init, j) == GlobalAt(rd, ts, j);
      var c := ScanLines(rd, init).value;
      if c.global.Some? {
        var i :| 0 <= i < |init| && GlobalAt(rd, init, i) && (forall j :: 0 <= j < i ==> !GlobalAt(rd, init, j))
                 && c.global == Some(rd.parseGlobal(init[i]));
        assert GlobalAt(rd, ts, i);
      } else if GlobalAt(rd, ts, last) {
        assert forall j :: 0 <= j < last ==> !GlobalAt(rd, ts, j);
        assert ScanLines(rd, ts) == Step(rd, c, ts[last]);
        assert ScanLines(rd, ts).value.global == Some(rd.parseGlobal(ts[last]));
      } else {
        assert ScanLines(rd, ts) == Step(rd, c, ts[last]);
      }
    }
  }

  /** The first line that can be the global line gives the global
      parameters. */
  lemma FirstCandidateGives(rd: Reader, ts: seq<string>, i: nat)
    requires ScanLines(rd, ts).Success? && i < |ts| && GlobalAt(rd, ts, i)
    requires forall j :: 0 <= j < i ==> !GlobalAt(rd, ts, j)
    ensures ScanLines(rd, ts).value.global == Some(rd.parseGlobal(ts[i]))
  {
    GlobalFromFirstCandidate(rd, ts);
    var k :| 0 <= k < |ts| && GlobalAt(rd, ts, k) && (forall j :: 0 <= j < k ==> !GlobalAt(rd, ts, j))
             && ScanLines(rd, ts).value.global == Some(rd.parseGlobal(ts[k]));
    assert k == i;
  }
}
