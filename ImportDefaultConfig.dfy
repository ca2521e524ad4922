/** vald/management/commands/import_default_config.py: the line-list parser
    of the system default configuration and the way `handle` sorts the
    lines of a `.cfg` file (the loop itself is `CfgFormat.ReadLines`). The
    file is given as its lines; the database writes after the loop are not
    part of this model. */
module ImportDefaultConfig {
  import opened Wrappers
  import opened Text
  import opened CfgFormat

  /** `_parse_linelist_entry`: the path is the quoted text the line starts
      with, and one comma after it is dropped. */
  function ParseLinelistEntry(line: string): EntryResult
  {
    var (enabled, body) := EntryBody(line);
    match PathAndRest(body)
    case None => NoEntry
    case Some((path, rest)) => EntryFromRest(path, rest, enabled)
  }

  /** The quoted path at the start of the body and the text after it. */
  function PathAndRest(body: string): Option<(string, string)>
  {
    if !StartsWith(body, "'") then None
    else
      match QuotedPath(body)
      case None => None
      case Some((path, end)) =>
        var rest := Strip(body[end..]);
        Some((path, if StartsWith(rest, ",") then Strip(rest[1..]) else rest))
  }

  /** The lines `handle` passes over: blank lines, and ';' lines without a
      quote. */
  predicate Skipped(t: string) { t == [] || (StartsWith(t, ";") && '\'' !in t) }

  /** A line that becomes the global line while there is none. */
  predicate IsGlobalLine(t: string) { !StartsWith(t, "'") && !StartsWith(t, ";") }

  /** How `handle` reads the file. */
  const DefaultConfigReader := Reader(Skipped, IsGlobalLine, ParseGlobalParams, ParseLinelistEntry)

  /** An entry comes only from a line whose body, after an optional ';',
      starts with a quoted path; it has that path, and it is disabled
      exactly when the line starts with ';'. */
  lemma EntryNeedsQuotedPath(line: string)
    ensures var r := ParseLinelistEntry(line);
            var body := EntryBody(line).1;
            r.Parsed? ==>
              && StartsWith(body, "'") && QuotedPath(body).Some? && r.entry.path == QuotedPath(body).value.0
              && (r.entry.enabled <==> !StartsWith(line, ";"))
  {
    var (enabled, body) := EntryBody(line);
    match PathAndRest(body)
    case None =>
    case Some((path, rest)) => EntryFields(path, rest, enabled);
  }

  /** The path and the rest of a written entry line. */
  lemma EntryLinePathAndRest(e: Entry)
    requires |e.ranks| == 9 && e.path != [] && '\'' !in e.path
    ensures PathAndRest(QuotedEntryLine(e)) == Some((e.path, EntryRest(e)))
  {
    EntryLinePath(e);
    EntryRestStrips(e);
    PathAndRestAfterComma(QuotedEntryLine(e), e.path, |e.path| + 2, EntryRest(e));
  }

  /** A quoted path followed by ", " and a text that one blank in front of
      does not change under stripping: that path and that text. */
  lemma PathAndRestAfterComma(body: string, path: string, end: nat, rest: string)
    requires body != [] && body[0] == '\'' && QuotedPath(body) == Some((path, end)) && end <= |body|
    requires body[end..] == ", " + rest && Strip(", " + rest) == ", " + rest && Strip(" " + rest) == rest
    ensures PathAndRest(body) == Some((path, rest))
  {
    var s := ", " + rest;
    assert StartsWith(body, "'");
    assert StartsWith(s, ",");
    assert s[1..] == " " + rest;
  }

  /** A written entry line reads back as the entry. */
  lemma EntryLineRoundTrip(e: Entry)
    requires |e.ranks| == 9 && e.path != [] && '\'' !in e.path
    requires e.name != [] && '\'' !in e.name && e.replacementWindow == 0.05
    ensures ParseLinelistEntry(EntryLine(e)) == Parsed(e)
  {
    EntryLineBody(e);
    EntryLinePathAndRest(e);
    EntryRestRoundTrip(e);
  }

  /** Passed-over lines and the global line give no entry, so that where a
      line stands does not decide whether it is read as an entry. */
  lemma NonEntryLines(t: string)
    requires Skipped(t) || IsGlobalLine(t)
    ensures ParseLinelistEntry(t) == NoEntry
  {
    if t != [] && StartsWith(t, ";") && '\'' !in t {
      if Strip(t[1..]) != [] {
        StripStartsInside(t[1..]);
      }
    }
  }

  /** The reader keeps entries apart from the other lines. */
  lemma DefaultConfigEntriesApart()
    ensures EntriesApart(DefaultConfigReader)
  {
    forall t | Skipped(t) || IsGlobalLine(t) ensures ParseLinelistEntry(t) == NoEntry {
      NonEntryLines(t);
    }
  }

  /** The parse of `handle`: the file fails with a `ValueError` exactly when
      one of its stripped lines raises as a line-list line, the entries are
      those of every line-list line in file order, and the global parameters
      are those of the first line that can be the global line. */
  method ReadDefaultConfig(lines: seq<string>) returns (r: Result<Contents, string>)
    ensures var ts := StripAll(lines);
            r.Failure? <==> exists i :: 0 <= i < |ts| && ParseLinelistEntry(ts[i]) == Raises
    ensures r.Success? ==> r.value.entries == ParsedEntries(DefaultConfigReader, StripAll(lines))
    ensures r.Success? ==>
              (r.value.global.None? <==> forall i :: 0 <= i < |lines| ==> !GlobalAt(DefaultConfigReader, StripAll(lines), i))
    ensures r.Success? ==>
              forall i :: 0 <= i < |lines| && GlobalAt(DefaultConfigReader, StripAll(lines), i)
                          && (forall j :: 0 <= j < i ==> !GlobalAt(DefaultConfigReader, StripAll(lines), j)) ==>
                r.value.global == Some(ParseGlobalParams(StripAll(lines)[i]))
  {
    r := ReadLines(DefaultConfigReader, lines);
    var ts := StripAll(lines);
    DefaultConfigEntriesApart();
    ScanEntries(DefaultConfigReader, ts);
    if r.Success? {
      GlobalFromFirstCandidate(DefaultConfigReader, ts);
      forall i | 0 <= i < |lines| && GlobalAt(DefaultConfigReader, ts, i) && (forall j :: 0 <= j < i ==> !GlobalAt(DefaultConfigReader, ts, j))
        ensures r.value.global == Some(ParseGlobalParams(ts[i]))
      {
        FirstCandidateGives(DefaultConfigReader, ts, i);
      }
    }
  }

  /** The values `handle` stores in the default configuration, read from the
      global parameters with `.get`: with no global line at all the
      parameters are `None` and the `.get` raises an `AttributeError`. */
  function ConfigGlobalsAsWritten(global: Option<GlobalParams>): (r: Result<GlobalParams, string>)
    ensures r.Success? <==> global.Some?
  {
    match global
    case Some(g) => Success(g)
    case None => Failure("AttributeError")
  }

  /** The values `handle` stores for a file, imported without `--dry-run`:
      the loop's `ValueError`, or the `.get` calls on the global parameters
      it found. */
  function StoredGlobalsAsWritten(lines: seq<string>): Result<GlobalParams, string>
  {
    match ScanLines(DefaultConfigReader, StripAll(lines))
    case Failure(err) => Failure(err)
    case Success(c) => ConfigGlobalsAsWritten(c.global)
  }

  /** The values `handle` is evidently meant to store: the global line's, or
      the defaults of the `.get` calls when there is none. */
  function StoredGlobals(lines: seq<string>): Result<GlobalParams, string>
  {
    match ScanLines(DefaultConfigReader, StripAll(lines))
    case Failure(err) => Failure(err)
    case Success(c) => Success(ConfigGlobals(c.global))
  }

  /** A file in which no line raises and no line can be the global line makes
      the import fail with an `AttributeError`. */
  lemma NoGlobalLineFails(lines: seq<string>)
    requires forall i :: 0 <= i < |lines| ==> ParseLinelistEntry(StripAll(lines)[i]) != Raises
    requires forall i :: 0 <= i < |lines| ==> !GlobalAt(DefaultConfigReader, StripAll(lines), i)
    ensures StoredGlobalsAsWritten(lines) == Failure("AttributeError")
  {
    var ts := StripAll(lines);
    DefaultConfigEntriesApart();
    ScanEntries(DefaultConfigReader, ts);
    GlobalFromFirstCandidate(DefaultConfigReader, ts);
  }

  /** The corrected reading stores the defaults for such a file, and the
      first global line's values otherwise. */
  lemma StoredGlobalsOfFile(lines: seq<string>)
    requires forall i :: 0 <= i < |lines| ==> ParseLinelistEntry(StripAll(lines)[i]) != Raises
    ensures (forall i :: 0 <= i < |lines| ==> !GlobalAt(DefaultConfigReader, StripAll(lines), i))
            ==> StoredGlobals(lines) == Success(DefaultGlobals)
    ensures forall i :: 0 <= i < |lines| && GlobalAt(DefaultConfigReader, StripAll(lines), i)
                        && (forall j :: 0 <= j < i ==> !GlobalAt(DefaultConfigReader, StripAll(lines), j))
                        ==> StoredGlobals(lines) == Success(ParseGlobalParams(StripAll(lines)[i]))
  {
    var ts := StripAll(lines);
    DefaultConfigEntriesApart();
    ScanEntries(DefaultConfigReader, ts);
    GlobalFromFirstCandidate(DefaultConfigReader, ts);
    forall i | 0 <= i < |lines| && GlobalAt(DefaultConfigReader, ts, i) && (forall j :: 0 <= j < i ==> !GlobalAt(DefaultConfigReader, ts, j))
      ensures StoredGlobals(lines) == Success(ParseGlobalParams(ts[i]))
    {
      FirstCandidateGives(DefaultConfigReader, ts, i);
    }
  }

  /** Wherever the code succeeds it stores the corrected values. */
  lemma {:induction false} ConfigGlobalsAgree(lines: seq<string>)
    ensures StoredGlobalsAsWritten(lines).Success? ==> StoredGlobalsAsWritten(lines) == StoredGlobals(lines)
    ensures StoredGlobalsAsWritten(lines).Failure? && StoredGlobals(lines).Success? ==>
              StoredGlobals(lines) == Success(DefaultGlobals)
  {
  }
}
