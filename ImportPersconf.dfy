/** vald/management/commands/import_persconf.py: the parsers of a user's
    personal `.cfg` file, the way `_parse_cfg_file` sorts its lines (the loop
    itself is `CfgFormat.ReadLines`), the comparison of an entry with the
    default configuration and the search for the file's user. Files, users
    and the default configuration are given as values; the database writes
    of `_import_file` are not part of this model. */
module ImportPersconf {
  import opened Wrappers
  import opened Text
  import opened CfgFormat

  // ---------------------------------------------------------------------------
  // Line-list lines
  // ---------------------------------------------------------------------------

  /** `_parse_linelist_entry`: the line's path and the text after it. */
  function ParseLinelistEntry(line: string): EntryResult
  {
    var (enabled, body) := EntryBody(line);
    match PathAndRest(body)
    case None => NoEntry
    case Some((path, rest)) => EntryFromRest(path, rest, enabled)
  }

  /** A quoted path, after which blanks and all leading commas are dropped,
      or an unquoted path starting with '/', which ends at the first comma;
      any other body has no path. */
  function PathAndRest(body: string): Option<(string, string)>
  {
    if StartsWith(body, "'") then
      match QuotedPath(body)
      case None => None
      case Some((path, end)) => Some((path, Strip(LStripChar(Strip(body[end..]), ','))))
    else if StartsWith(body, "/") then
      var i := IndexOf(body, ',');
      Some((Strip(body[..i]), if i < |body| then Strip(body[i + 1..]) else ""))
    else None
  }

  /** An entry comes only from a body, after an optional ';', that starts
      with a quote or with '/'; its path is the quoted one, or the stripped
      text before the first comma; it is disabled exactly when the line
      starts with ';'. */
  lemma EntryNeedsPath(line: string)
    ensures var r := ParseLinelistEntry(line);
            var body := EntryBody(line).1;
            r.Parsed? ==>
              && (r.entry.enabled <==> !StartsWith(line, ";"))
              && (StartsWith(body, "'") ==> QuotedPath(body).Some? && r.entry.path == QuotedPath(body).value.0)
              && (!StartsWith(body, "'") ==> StartsWith(body, "/") && r.entry.path == Strip(body[..IndexOf(body, ',')]))
  {
    var (enabled, body) := EntryBody(line);
    match PathAndRest(body)
    case None =>
    case Some((path, rest)) => EntryFields(path, rest, enabled);
  }

  /** A rest text that starts with neither a blank nor a comma and does not
      end in a blank. */
  predicate CleanRest(rest: string)
  {
    rest != [] && !IsSpace(rest[0]) && rest[0] != ',' && !IsSpace(rest[|rest| - 1])
  }

  /** What the quoted-path branch keeps of ", " and a clean rest. */
  lemma CommaRestStrips(rest: string)
    requires CleanRest(rest)
    ensures Strip(LStripChar(Strip(", " + rest), ',')) == rest
  {
    StripIdentity(", " + rest);
    assert (", " + rest)[1..] == " " + rest;
    assert LStripChar(", " + rest, ',') == " " + rest;
    BlankRestStrips(rest);
  }

  /** A body whose quoted path is followed by ", " and a clean rest. */
  lemma QuotedBodyPathAndRest(body: string, path: string, rest: string)
    requires StartsWith(body, "'") && QuotedPath(body) == Some((path, |path| + 2))
    requires body[|path| + 2..] == ", " + rest && CleanRest(rest)
    ensures PathAndRest(body) == Some((path, rest))
  {
    CommaRestStrips(rest);
  }

  /** The path and the rest of a written entry line with a quoted path. */
  lemma QuotedLinePathAndRest(e: Entry)
    requires |e.ranks| == 9 && e.path != [] && '\'' !in e.path
    ensures PathAndRest(QuotedEntryLine(e)) == Some((e.path, EntryRest(e)))
  {
    var body := QuotedEntryLine(e);
    EntryLinePath(e);
    EntryRestEnds(e);
    assert body[..1] == "'";
    QuotedBodyPathAndRest(body, e.path, EntryRest(e));
  }

  /** A written entry line with a quoted path reads back as the entry. */
  lemma EntryLineRoundTrip(e: Entry)
    requires |e.ranks| == 9 && e.path != [] && '\'' !in e.path
    requires e.name != [] && '\'' !in e.name && e.replacementWindow == 0.05
    ensures ParseLinelistEntry(EntryLine(e)) == Parsed(e)
  {
    EntryLineBody(e);
    QuotedLinePathAndRest(e);
    EntryRestRoundTrip(e);
  }

  /** An entry line with its path written without quotes. */
  function UnquotedEntryLine(e: Entry): string
  {
    (if e.enabled then "" else ";") + e.path + ", " + EntryRest(e)
  }

  /** The body of an unquoted entry line is the line after its ';'. */
  lemma UnquotedLineBody(e: Entry)
    requires |e.ranks| == 9 && StartsWith(e.path, "/")
    ensures EntryBody(UnquotedEntryLine(e)) == (e.enabled, e.path + ", " + EntryRest(e))
  {
    var q := e.path + ", " + EntryRest(e);
    EntryRestEnds(e);
    assert q[0] == '/' && q[|q| - 1] == '\'';
    if e.enabled {
      assert UnquotedEntryLine(e) == q;
      assert !StartsWith(q, ";");
    } else {
      assert UnquotedEntryLine(e) == ";" + q;
      assert UnquotedEntryLine(e)[1..] == q;
      StripIdentity(q);
    }
  }

  /** The path and the rest of a line with an unquoted path. */
  lemma UnquotedPathAndRest(path: string, rest: string)
    requires StartsWith(path, "/") && ',' !in path && !IsSpace(path[|path| - 1]) && CleanRest(rest)
    ensures PathAndRest(path + ", " + rest) == Some((path, rest))
  {
    var body := path + ", " + rest;
    assert body == path + [','] + (" " + rest);
    assert body[..1] == path[..1] == "/";
    IndexOfAfterPrefix(path, " " + rest, ',');
    var i := IndexOf(body, ',');
    assert i == |path| < |body|;
    assert body[..i] == path;
    StripIdentity(path);
    assert body[i + 1..] == " " + rest;
    BlankRestStrips(rest);
  }

  /** One blank before a clean rest is stripped off. */
  lemma BlankRestStrips(rest: string)
    requires CleanRest(rest)
    ensures Strip(" " + rest) == rest
  {
    assert RStrip(" " + rest) == " " + rest;
    assert (" " + rest)[1..] == rest;
    StripIdentity(rest);
  }

  /** The path and the rest of a written entry line with an unquoted path. */
  lemma UnquotedLinePathAndRest(e: Entry)
    requires |e.ranks| == 9 && StartsWith(e.path, "/") && ',' !in e.path && !IsSpace(e.path[|e.path| - 1])
    ensures PathAndRest(e.path + ", " + EntryRest(e)) == Some((e.path, EntryRest(e)))
  {
    EntryRestEnds(e);
    UnquotedPathAndRest(e.path, EntryRest(e));
  }

  /** A written entry line with an unquoted path reads back as the entry. */
  lemma UnquotedLineRoundTrip(e: Entry)
    requires |e.ranks| == 9 && StartsWith(e.path, "/") && ',' !in e.path && !IsSpace(e.path[|e.path| - 1])
    requires e.name != [] && '\'' !in e.name && e.replacementWindow == 0.05
    ensures ParseLinelistEntry(UnquotedEntryLine(e)) == Parsed(e)
  {
    UnquotedLineBody(e);
    UnquotedLinePathAndRest(e);
    EntryRestRoundTrip(e);
  }

  // ---------------------------------------------------------------------------
  // The lines of the file
  // ---------------------------------------------------------------------------

  /** The lines `_parse_cfg_file` passes over: blank lines, and ';' lines
      with neither a quote nor a '/'. */
  predicate Skipped(t: string) { t == [] || (StartsWith(t, ";") && '\'' !in t && '/' !in t) }

  /** A line that becomes the global line while there is none. */
  predicate IsGlobalLine(t: string) { !StartsWith(t, "'") && !StartsWith(t, "/") && !StartsWith(t, ";") }

  /** How `_parse_cfg_file` reads the file. */
  const PersconfReader := Reader(Skipped, IsGlobalLine, ParseGlobalParams, ParseLinelistEntry)

  /** Passed-over lines and the global line give no entry. */
  lemma NonEntryLines(t: string)
    requires Skipped(t) || IsGlobalLine(t)
    ensures ParseLinelistEntry(t) == NoEntry
  {
    var body := EntryBody(t).1;
    if t != [] && StartsWith(t, ";") && '\'' !in t && '/' !in t {
      if body != [] {
        StripStartsInside(t[1..]);
        assert body[0] in t;
      }
    }
    assert !StartsWith(body, "'") && !StartsWith(body, "/");
    assert PathAndRest(body) == None;
  }

  /** The reader keeps entries apart from the other lines. */
  lemma PersconfEntriesApart()
    ensures EntriesApart(PersconfReader)
  {
    forall t | Skipped(t) || IsGlobalLine(t) ensures ParseLinelistEntry(t) == NoEntry {
      NonEntryLines(t);
    }
  }

  /** `_parse_cfg_file`: the global parameters (the defaults when the file
      has no global line, as `global_params or {}` and the `.get` defaults
      give) and the entries. The parse fails with a `ValueError` exactly
      when some stripped line raises as a line-list line; the entries are
      those of every line-list line in file order; the global parameters
      are those of the first line that can be the global line. */
  method ParseCfgFile(lines: seq<string>) returns (r: Result<(GlobalParams, seq<Entry>), string>)
    ensures var ts := StripAll(lines);
            r.Failure? <==> exists i :: 0 <= i < |ts| && ParseLinelistEntry(ts[i]) == Raises
    ensures r.Success? ==> r.value.1 == ParsedEntries(PersconfReader, StripAll(lines))
    ensures r.Success? && (forall i :: 0 <= i < |lines| ==> !GlobalAt(PersconfReader, StripAll(lines), i)) ==>
              r.value.0 == DefaultGlobals
    ensures r.Success? ==>
              forall i :: 0 <= i < |lines| && GlobalAt(PersconfReader, StripAll(lines), i)
                          && (forall j :: 0 <= j < i ==> !GlobalAt(PersconfReader, StripAll(lines), j)) ==>
                r.value.0 == ParseGlobalParams(StripAll(lines)[i])
  {
    var contents := ReadLines(PersconfReader, lines);
    PersconfEntriesApart();
    ScanEntries(PersconfReader, StripAll(lines));
    if contents.Failure? {
      return Failure(contents.error);
    }
    var ts := StripAll(lines);
    GlobalFromFirstCandidate(PersconfReader, ts);
    forall i | 0 <= i < |lines| && GlobalAt(PersconfReader, ts, i) && (forall j :: 0 <= j < i ==> !GlobalAt(PersconfReader, ts, j))
      ensures ScanLines(PersconfReader, ts).value.global == Some(ParseGlobalParams(ts[i]))
    {
      FirstCandidateGives(PersconfReader, ts, i);
    }
    r := Success((ConfigGlobals(contents.value.global), contents.value.entries));
  }

  // ---------------------------------------------------------------------------
  // Comparing with the default configuration
  // ---------------------------------------------------------------------------

  /** What `_compare_entry` reads of the default configuration's list: its
      flag and its nine rank columns. */
  datatype DefaultLinelist = DefaultLinelist(isEnabled: bool, ranks: seq<int>)

  /** The names of the nine ranks, in column order. */
  const RankNames: seq<string> := ["wl", "gf", "rad", "stark", "waals", "lande", "term", "ext_vdw", "zeeman"]

  /** The difference of the flags, named by the entry's. */
  function EnabledDiff(e: Entry, d: DefaultLinelist): (r: seq<string>)
    ensures r == [] <==> e.enabled == d.isEnabled
    ensures r != [] ==> r == [if e.enabled then "enabled" else "disabled"]
  {
    if e.enabled != d.isEnabled then [if e.enabled then "enabled" else "disabled"] else []
  }

  /** `rank_<name>` for each of the first `n` ranks that differ, in order. */
  function RankDiffs(a: seq<int>, b: seq<int>, n: nat): seq<string>
    requires n <= |a| && n <= |b| && n <= |RankNames|
  {
    if n == 0 then []
    else RankDiffs(a, b, n - 1) + (if a[n - 1] != b[n - 1] then ["rank_" + RankNames[n - 1]] else [])
  }

  /** No rank differs exactly when there is no rank difference. */
  lemma {:induction false} RankDiffsEmpty(a: seq<int>, b: seq<int>, n: nat)
    requires n <= |a| && n <= |b| && n <= |RankNames|
    ensures RankDiffs(a, b, n) == [] <==> forall i :: 0 <= i < n ==> a[i] == b[i]
  {
    if n > 0 {
      RankDiffsEmpty(a, b, n - 1);
    }
  }

  /** The rank names are all different. */
  lemma RankNamesDistinct(j: nat, k: nat)
    requires j < |RankNames| && k < |RankNames| && j != k
    ensures "rank_" + RankNames[j] != "rank_" + RankNames[k]
  {
    var x := "rank_" + RankNames[j];
    var y := "rank_" + RankNames[k];
    assert x[5..] == RankNames[j] && y[5..] == RankNames[k];
  }

  /** Every listed difference names a rank that differs. */
  lemma {:induction false} RankDiffsFrom(a: seq<int>, b: seq<int>, n: nat, s: string)
    requires n <= |a| && n <= |b| && n <= |RankNames|
    requires s in RankDiffs(a, b, n)
    ensures exists j :: 0 <= j < n && a[j] != b[j] && s == "rank_" + RankNames[j]
  {
    if s !in RankDiffs(a, b, n - 1) {
      assert a[n - 1] != b[n - 1] && s == "rank_" + RankNames[n - 1];
    } else {
      RankDiffsFrom(a, b, n - 1, s);
    }
  }

  /** Rank `k` is listed exactly when it differs. */
  lemma {:induction false} RankDiffMember(a: seq<int>, b: seq<int>, n: nat, k: nat)
    requires n <= |a| && n <= |b| && n <= |RankNames| && k < n
    ensures "rank_" + RankNames[k] in RankDiffs(a, b, n) <==> a[k] != b[k]
  {
    var s := "rank_" + RankNames[k];
    if s in RankDiffs(a, b, n) {
      RankDiffsFrom(a, b, n, s);
      var j :| 0 <= j < n && a[j] != b[j] && s == "rank_" + RankNames[j];
      if j != k {
        RankNamesDistinct(j, k);
      }
    } else if a[k] != b[k] {
      RankDiffsHas(a, b, n, k);
    }
  }

  /** A rank that differs is listed. */
  lemma {:induction false} RankDiffsHas(a: seq<int>, b: seq<int>, n: nat, k: nat)
    requires n <= |a| && n <= |b| && n <= |RankNames| && k < n && a[k] != b[k]
    ensures "rank_" + RankNames[k] in RankDiffs(a, b, n)
  {
    if k < n - 1 {
      RankDiffsHas(a, b, n - 1, k);
    }
  }

  /** `_compare_entry`: the flag difference, then the rank differences over
      the ranks `zip` pairs up. An entry from a parsed line has nine ranks,
      and then the list is empty exactly when the flag and all nine ranks
      agree. */
  method CompareEntry(e: Entry, d: DefaultLinelist) returns (diffs: seq<string>)
    requires |d.ranks| == |RankNames|
    ensures diffs == EnabledDiff(e, d) + RankDiffs(e.ranks, d.ranks, if |e.ranks| < |d.ranks| then |e.ranks| else |d.ranks|)
    ensures |e.ranks| == |RankNames| ==> (diffs == [] <==> e.enabled == d.isEnabled && e.ranks == d.ranks)
  {
    diffs := [];
    if e.enabled != d.isEnabled {
      diffs := diffs + [if e.enabled then "enabled" else "disabled"];
    }
    var n := if |e.ranks| < |d.ranks| then |e.ranks| else |d.ranks|;
    for i := 0 to n
      invariant diffs == EnabledDiff(e, d) + RankDiffs(e.ranks, d.ranks, i)
    {
      if e.ranks[i] != d.ranks[i] {
        diffs := diffs + ["rank_" + RankNames[i]];
      }
    }
    RankDiffsEmpty(e.ranks, d.ranks, n);
  }

  // ---------------------------------------------------------------------------
  // The file's user
  // ---------------------------------------------------------------------------

  /** `_find_user_by_filename` over the users' names in the order the
      database lists them: the first user whose name without whitespace is
      the file's stem, or none. */
  method FindUserByFilename(userNames: seq<string>, stem: string) returns (r: Option<nat>)
    ensures r.Some? ==> r.value < |userNames| && RemoveSpaces(userNames[r.value]) == stem
    ensures r.Some? ==> forall j :: 0 <= j < r.value ==> RemoveSpaces(userNames[j]) != stem
    ensures r.None? <==> forall j :: 0 <= j < |userNames| ==> RemoveSpaces(userNames[j]) != stem
  {
    for i := 0 to |userNames|
      invariant forall j :: 0 <= j < i ==> RemoveSpaces(userNames[j]) != stem
    {
      if RemoveSpaces(userNames[i]) == stem {
        return Some(i);
      }
    }
    return None;
  }

  /** A stem with whitespace in it names no user. */
  lemma StemWithSpaceMatchesNone(userNames: seq<string>, stem: string, k: nat)
    requires k < |stem| && IsSpace(stem[k])
    ensures forall j :: 0 <= j < |userNames| ==> RemoveSpaces(userNames[j]) != stem
  {
  }
}
