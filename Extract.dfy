/** The orchestration of vald/extraction.py: `extract_lines`, which reads every
    enabled source list of a configuration, filters and tags its rows, merges
    them and cuts the result, and `_parse_element_filter`, which turns a filter
    such as "Fe 1, Ca" into species codes. The line reader and the check that
    a list's files exist are parameters. */
module Extract {
  import opened Wrappers
  import opened Text
  import opened Species
  import opened LineData
  import opened Merge

  // ---------------------------------------------------------------------------
  // The element filter

  /** One comma-separated part of a filter, already stripped: the element name
      (the first token) and the charge, which is the ionisation stage minus one
      when the second token is an integer, and unconstrained otherwise. An
      empty part gives nothing. */
  function PartQuery(part: string): (r: Option<(string, Option<int>)>)
    ensures r.None? <==> SplitWs(part) == []
    ensures r.Some? ==> r.value == (SplitWs(part)[0], StageCharge(SplitWs(part)))
    ensures r.Some? ==> IsWord(r.value.0)
  {
    var tokens := SplitWs(part);
    if tokens == [] then None else Some((tokens[0], StageCharge(tokens)))
  }

  /** The charge a part's tokens ask for: the second token, an integer, minus one. */
  function StageCharge(tokens: seq<string>): (r: Option<int>)
    ensures |tokens| > 1 && ParseInt(tokens[1]).Some? ==> r == Some(ParseInt(tokens[1]).value - 1)
    ensures |tokens| <= 1 || ParseInt(tokens[1]).None? ==> r.None?
  {
    if |tokens| > 1 then
      match ParseInt(tokens[1])
      case Some(stage) => Some(stage - 1)
      case None => None
    else None
  }

  function Indices(entries: seq<Species>): (r: seq<int>)
    ensures |r| == |entries| && forall j :: 0 <= j < |entries| ==> r[j] == entries[j].index
  {
    seq(|entries|, j requires 0 <= j < |entries| => entries[j].index)
  }

  /** The species `get_species` gives for `code` is known and matches the query. */
  predicate CodeMatches(table: Table, code: int, name: string, charge: Option<int>)
  {
    GetSpecies(table, code).Some? && NameMatches(GetSpecies(table, code).value, name, charge)
  }

  /** The codes of the dictionary entries matching a name and an optional
      charge, in dictionary order. */
  function MatchCodes(table: Table, name: string, charge: Option<int>): seq<int>
  {
    Indices(FindSpeciesByName(table, name, charge))
  }

  /** A code is among the matches exactly when its species is known and matches. */
  lemma MatchCodesMembers(table: Table, name: string, charge: Option<int>, c: int)
    ensures c in MatchCodes(table, name, charge) <==> CodeMatches(table, c, name, charge)
  {
    var found := FindSpeciesByName(table, name, charge);
    var r := Indices(found);
    if c in r {
      var j :| 0 <= j < |r| && r[j] == c;
      assert found[j] in found;
    }
    if CodeMatches(table, c, name, charge) {
      var s := GetSpecies(table, c).value;
      assert s in found;
      var j :| 0 <= j < |found| && found[j] == s;
      assert r[j] == c;
    }
  }

  /** Each matching code occurs once. */
  lemma MatchCodesDistinct(table: Table, name: string, charge: Option<int>)
    ensures forall a, b :: 0 <= a < b < |MatchCodes(table, name, charge)| ==>
              MatchCodes(table, name, charge)[a] != MatchCodes(table, name, charge)[b]
  {
    var found := FindSpeciesByName(table, name, charge);
    assert forall a :: 0 <= a < |found| ==> MatchCodes(table, name, charge)[a] == found[a].index;
  }

  /** A stripped part asks for species `code`. */
  predicate PartSelects(table: Table, part: string, code: int)
  {
    PartQuery(part).Some? && CodeMatches(table, code, PartQuery(part).value.0, PartQuery(part).value.1)
  }

  /** The codes one stripped part contributes. */
  function PartCodes(table: Table, part: string): seq<int>
  {
    match PartQuery(part)
    case None => []
    case Some((name, charge)) => MatchCodes(table, name, charge)
  }

  /** A part contributes exactly the codes it asks for. */
  lemma PartCodesMembers(table: Table, part: string, c: int)
    ensures c in PartCodes(table, part) <==> PartSelects(table, part, c)
  {
    if PartQuery(part).Some? {
      MatchCodesMembers(table, PartQuery(part).value.0, PartQuery(part).value.1, c);
    }
  }

  /** `[p.strip() for p in filter_str.split(',')]`. */
  function Parts(filter: string): (r: seq<string>)
    ensures |r| == |SplitOn(filter, ',')|
    ensures forall k :: 0 <= k < |r| ==> r[k] == Strip(SplitOn(filter, ',')[k])
  {
    var split := SplitOn(filter, ',');
    seq(|split|, k requires 0 <= k < |split| => Strip(split[k]))
  }

  /** The code list of each part. */
  function PartCodeLists(table: Table, parts: seq<string>): (r: seq<seq<int>>)
    ensures |r| == |parts| && forall k :: 0 <= k < |parts| ==> r[k] == PartCodes(table, parts[k])
  {
    seq(|parts|, k requires 0 <= k < |parts| => PartCodes(table, parts[k]))
  }

  /** The first `n` code lists, one after the other (`species_codes.extend`). */
  function Flatten(lists: seq<seq<int>>, n: nat): seq<int>
    requires n <= |lists|
  {
    if n == 0 then [] else Flatten(lists, n - 1) + lists[n - 1]
  }

  lemma FlattenStep(lists: seq<seq<int>>, n: nat, init: seq<int>, more: seq<int>)
    requires n < |lists| && init == Flatten(lists, n) && more == lists[n]
    ensures init + more == Flatten(lists, n + 1)
  {
  }

  /** A code is in the first `n` lists together exactly when it is in one of them. */
  lemma {:induction false} FlattenMembers(lists: seq<seq<int>>, n: nat, c: int)
    requires n <= |lists|
    ensures c in Flatten(lists, n) <==> exists k :: 0 <= k < n && c in lists[k]
    decreases n
  {
    if n > 0 {
      FlattenMembers(lists, n - 1, c);
    }
  }

  /** The codes of earlier lists come first: those of the first `n` lists are
      a prefix of those of the first `m`. */
  lemma {:induction false} FlattenPrefix(lists: seq<seq<int>>, n: nat, m: nat)
    requires n <= m <= |lists|
    ensures |Flatten(lists, n)| <= |Flatten(lists, m)|
    ensures Flatten(lists, m)[..|Flatten(lists, n)|] == Flatten(lists, n)
    decreases m
  {
    if n < m {
      FlattenPrefix(lists, n, m - 1);
      var a := Flatten(lists, n);
      var b := Flatten(lists, m - 1);
      assert (b + lists[m - 1])[..|a|] == b[..|a|];
    }
  }

  /** Some part asks for `code`. */
  predicate SomePartSelects(table: Table, parts: seq<string>, code: int)
  {
    exists k :: 0 <= k < |parts| && PartSelects(table, parts[k], code)
  }

  /** The codes of a list of stripped parts, one part after the other. */
  function PartsCodes(table: Table, parts: seq<string>): seq<int>
  {
    var lists := PartCodeLists(table, parts);
    Flatten(lists, |lists|)
  }

  /** `_parse_element_filter`: the codes of every comma-separated part, in
      order. */
  function ElementFilterCodes(table: Table, filter: string): seq<int>
  {
    PartsCodes(table, Parts(filter))
  }

  /** A code is in the filter's result exactly when some part asks for it. */
  lemma ElementFilterMembers(table: Table, filter: string, c: int)
    ensures c in ElementFilterCodes(table, filter) <==> SomePartSelects(table, Parts(filter), c)
  {
    var parts := Parts(filter);
    var lists := PartCodeLists(table, parts);
    FlattenMembers(lists, |lists|, c);
    if c in ElementFilterCodes(table, filter) {
      var k :| 0 <= k < |lists| && c in lists[k];
      PartCodesMembers(table, parts[k], c);
    }
    if SomePartSelects(table, parts, c) {
      var k :| 0 <= k < |parts| && PartSelects(table, parts[k], c);
      PartCodesMembers(table, parts[k], c);
    }
  }

  /** Every code the filter gives is a known species. */
  lemma ElementFilterKnown(table: Table, filter: string, c: int)
    requires c in ElementFilterCodes(table, filter)
    ensures GetSpecies(table, c).Some?
  {
    ElementFilterMembers(table, filter, c);
  }

  /** The codes of an earlier part come before those of a later one. */
  lemma ElementFilterOrder(table: Table, filter: string, n: nat)
    requires n <= |Parts(filter)|
    ensures |Flatten(PartCodeLists(table, Parts(filter)), n)| <= |ElementFilterCodes(table, filter)|
    ensures ElementFilterCodes(table, filter)[..|Flatten(PartCodeLists(table, Parts(filter)), n)|]
            == Flatten(PartCodeLists(table, Parts(filter)), n)
  {
    var lists := PartCodeLists(table, Parts(filter));
    FlattenPrefix(lists, n, |lists|);
  }

  /** `_parse_element_filter`: the filter split at commas and stripped, then
      the loop over the parts. */
  method ParseElementFilter(table: Table, filter: string) returns (codes: seq<int>)
    ensures codes == ElementFilterCodes(table, filter)
  {
    var parts := Parts(filter);
    codes := ExtendCodes(table, parts);
  }

  /** The loop of `_parse_element_filter`, extending the code list part by part. */
  method ExtendCodes(table: Table, parts: seq<string>) returns (codes: seq<int>)
    ensures codes == PartsCodes(table, parts)
  {
    ghost var lists := PartCodeLists(table, parts);
    assert PartsCodes(table, parts) == Flatten(lists, |parts|);
    codes := [];
    var j := 0;
    while j < |parts|
      invariant 0 <= j <= |parts|
      invariant codes == Flatten(lists, j)
    {
      var more := PartCodes(table, parts[j]);
      FlattenStep(lists, j, codes, more);
      codes := codes + more;
      j := j + 1;
    }
  }

  /** "Fe 1" asks for neutral iron, charge 0. */
  lemma StageOneIsNeutral()
    ensures PartQuery("Fe 1") == Some(("Fe", Some(0)))
  {
    assert SplitWs("Fe 1") == ["Fe", "1"] by {
      assert IndexOfSpace("Fe 1") == 2;
      assert "Fe 1"[..2] == "Fe" && "Fe 1"[2..] == " 1";
      assert " 1"[1..] == "1";
      assert IndexOfSpace("1") == 1;
      assert "1"[..1] == "1" && "1"[1..] == [];
    }
    assert NatToString(1) == "1";
    ParseIntOfNatString(1, "1");
  }

  /** A stage that is not an integer leaves the charge unconstrained. */
  lemma NonIntegerStageMatchesAnyCharge()
    ensures PartQuery("Fe x") == Some(("Fe", None))
  {
    assert SplitWs("Fe x") == ["Fe", "x"] by {
      assert IndexOfSpace("Fe x") == 2;
      assert "Fe x"[..2] == "Fe" && "Fe x"[2..] == " x";
      assert " x"[1..] == "x";
      assert IndexOfSpace("x") == 1;
      assert "x"[..1] == "x" && "x"[1..] == [];
    }
    assert ParseInt("x") == None by {
      StripIdentity("x");
      assert !IsDigit('x');
    }
  }

  // ---------------------------------------------------------------------------
  // Configuration and the reader

  /** One entry of a configuration: the list's path, its merge mode (0 mergeable,
      1 standalone, 2 replacement list), its replacement window, its nine ranks
      in the configuration's own order and the range of species codes it holds. */
  datatype SourceConfig = SourceConfig(
    path: string, mergeable: int, replacementWindow: real,
    rankWl: int, rankGf: int, rankRad: int, rankStark: int, rankWaals: int,
    rankLande: int, rankTerm: int, rankExtVdw: int, rankZeeman: int,
    elementMin: int, elementMax: int)

  /** A configuration: its enabled lists in priority order, and the default
      window and reference wavelength of the merge. */
  datatype Config = Config(sources: seq<SourceConfig>, wlWindowRef: real, wlRef: real)

  /** A query result that keeps the reader's contract. */
  type ValidQuery = q: QueryResult | q.Valid()
    witness QueryResult(0, [], [], [], [], [], [], [], [], [], [], [], [], [])

  /** The reader of one list: a result, or the error it raises. */
  type Reader = (SourceConfig, real, real, int) -> Result<ValidQuery, string>

  /** `VALD3Reader.query_range`: an empty or inverted range raises before the
      files are read. */
  function QueryRange(read: Reader, c: SourceConfig, wlMin: real, wlMax: real, maxLines: int): (r: Result<ValidQuery, string>)
    ensures wlMin >= wlMax ==> r.Failure?
    ensures wlMin < wlMax ==> r == read(c, wlMin, wlMax, maxLines)
  {
    if wlMin >= wlMax then Failure("wl_min must be less than wl_max")
    else read(c, wlMin, wlMax, maxLines)
  }

  /** The internal rank order (wl, gf, E_low, E_up, Landé, rad, Stark, vdW, term)
      filled from the configuration's order; both energies get rank 3. */
  function SourceRanks(c: SourceConfig): (r: Ranks)
    ensures r[0] == c.rankWl && r[1] == c.rankGf && r[2] == 3 && r[3] == 3 && r[4] == c.rankLande
    ensures r[5] == c.rankRad && r[6] == c.rankStark && r[7] == c.rankWaals && r[8] == c.rankTerm
  {
    [c.rankWl, c.rankGf, 3, 3, c.rankLande, c.rankRad, c.rankStark, c.rankWaals, c.rankTerm]
  }

  /** Whether some filter code falls in the list's species range. */
  predicate CouldHold(c: SourceConfig, codes: seq<int>)
  {
    exists s :: s in codes && c.elementMin <= s <= c.elementMax
  }

  /** The rows list `idx` contributes: none when its files are missing, when a
      filter is given and no filter code is in its range, when the read fails, or
      when it has no lines; otherwise its rows, tagged and filtered by species. */
  function Contribution(c: SourceConfig, idx: int, codes: seq<int>, wlMin: real, wlMax: real,
                        maxLines: int, present: SourceConfig -> bool, read: Reader): Lines
  {
    if !present(c) then []
    else if codes != [] && !CouldHold(c, codes) then []
    else
      match QueryRange(read, c, wlMin, wlMax, maxLines)
      case Failure(_) => []
      case Success(q) =>
        if q.nlines > 0 then FilterBySpecies(QueryRows(q, idx, SourceRanks(c), c.mergeable != 1, c.mergeable == 2), codes)
        else []
  }

  /** The contribution of every enabled list, by position. */
  function Contributions(sources: seq<SourceConfig>, codes: seq<int>, wlMin: real, wlMax: real,
                         maxLines: int, present: SourceConfig -> bool, read: Reader): (r: seq<Lines>)
    ensures |r| == |sources|
    ensures forall i :: 0 <= i < |sources| ==> r[i] == Contribution(sources[i], i, codes, wlMin, wlMax, maxLines, present, read)
  {
    seq(|sources|, i requires 0 <= i < |sources| => Contribution(sources[i], i, codes, wlMin, wlMax, maxLines, present, read))
  }

  /** The non-empty lists among the first `n`, in order. */
  function NonEmpty(contribs: seq<Lines>, n: nat): (r: seq<Lines>)
    requires n <= |contribs|
    ensures |r| <= n
  {
    if n == 0 then []
    else if |contribs[n - 1]| > 0 then NonEmpty(contribs, n - 1) + [contribs[n - 1]]
    else NonEmpty(contribs, n - 1)
  }

  /** `all_lines` after the first `n` enabled lists: their non-empty
      contributions, in list order, list `idx` tagged with `idx`. */
  function Collect(sources: seq<SourceConfig>, codes: seq<int>, wlMin: real, wlMax: real,
                   maxLines: int, present: SourceConfig -> bool, read: Reader, n: nat): seq<Lines>
    requires n <= |sources|
  {
    NonEmpty(Contributions(sources, codes, wlMin, wlMax, maxLines, present, read), n)
  }

  /** One more list: `all_lines` grows by its rows exactly when there are any. */
  lemma CollectStep(sources: seq<SourceConfig>, codes: seq<int>, wlMin: real, wlMax: real,
                    maxLines: int, present: SourceConfig -> bool, read: Reader, n: nat, rows: Lines)
    requires n < |sources| && rows == Contribution(sources[n], n, codes, wlMin, wlMax, maxLines, present, read)
    ensures Collect(sources, codes, wlMin, wlMax, maxLines, present, read, n + 1)
         == if |rows| > 0 then Collect(sources, codes, wlMin, wlMax, maxLines, present, read, n) + [rows]
            else Collect(sources, codes, wlMin, wlMax, maxLines, present, read, n)
  {
    var contribs := Contributions(sources, codes, wlMin, wlMax, maxLines, present, read);
    assert contribs[n] == rows;
  }

  /** The lists `extract_lines` hands to the merge. */
  function ReadLists(cfg: Config, table: Table, filter: string, wlMin: real, wlMax: real,
                     maxLines: int, present: SourceConfig -> bool, read: Reader): seq<Lines>
  {
    Collect(cfg.sources, FilterCodes(table, filter), wlMin, wlMax, maxLines, present, read, |cfg.sources|)
  }

  /** Row `x` carries the position, ranks and flags of one of the lists, and a
      filter code under a filter. */
  predicate Tagged(sources: seq<SourceConfig>, codes: seq<int>, x: Line)
  {
    0 <= x.source < |sources| && x.ranks == SourceRanks(sources[x.source])
    && x.mergeable == (sources[x.source].mergeable != 1)
    && x.isReplacement == (sources[x.source].mergeable == 2)
    && (codes != [] ==> x.species in codes)
  }

  /** A list handed to the merge: non-empty, and every row tagged. */
  predicate ListTagged(sources: seq<SourceConfig>, codes: seq<int>, rows: Lines)
  {
    |rows| > 0 && forall x :: x in rows ==> Tagged(sources, codes, x)
  }

  /** The rows list `idx` contributes carry its position, ranks and flags, and a
      filter code under a filter. */
  lemma {:induction false} ContributionRows(sources: seq<SourceConfig>, idx: nat, codes: seq<int>, wlMin: real, wlMax: real,
                                            maxLines: int, present: SourceConfig -> bool, read: Reader)
    requires idx < |sources|
    ensures forall x :: x in Contribution(sources[idx], idx, codes, wlMin, wlMax, maxLines, present, read) ==>
      x.source == idx && Tagged(sources, codes, x)
  {
    var c := sources[idx];
    if present(c) && (codes == [] || CouldHold(c, codes)) {
      var res := QueryRange(read, c, wlMin, wlMax, maxLines);
      if res.Success? && res.value.nlines > 0 {
        var rows := QueryRows(res.value, idx, SourceRanks(c), c.mergeable != 1, c.mergeable == 2);
        assert forall x :: x in FilterBySpecies(rows, codes) ==> x in rows;
      }
    }
  }

  /** The non-empty lists among tagged lists are tagged lists. */
  lemma {:induction false} NonEmptyTagged(sources: seq<SourceConfig>, codes: seq<int>, contribs: seq<Lines>, n: nat)
    requires n <= |contribs|
    requires forall i :: 0 <= i < |contribs| ==> forall x :: x in contribs[i] ==> Tagged(sources, codes, x)
    ensures forall a :: 0 <= a < |NonEmpty(contribs, n)| ==> ListTagged(sources, codes, NonEmpty(contribs, n)[a])
  {
    if n > 0 {
      NonEmptyTagged(sources, codes, contribs, n - 1);
      var prev := NonEmpty(contribs, n - 1);
      var all := NonEmpty(contribs, n);
      forall a | 0 <= a < |all| ensures ListTagged(sources, codes, all[a]) {
        if a < |prev| {
          assert all[a] == prev[a];
        } else {
          assert all[a] == contribs[n - 1];
        }
      }
    }
  }

  /** Every row of every collected list is tagged, and no collected list is empty. */
  lemma CollectTagged(sources: seq<SourceConfig>, codes: seq<int>, wlMin: real, wlMax: real,
                      maxLines: int, present: SourceConfig -> bool, read: Reader, n: nat)
    requires n <= |sources|
    ensures forall a :: 0 <= a < |Collect(sources, codes, wlMin, wlMax, maxLines, present, read, n)| ==>
      ListTagged(sources, codes, Collect(sources, codes, wlMin, wlMax, maxLines, present, read, n)[a])
  {
    var contribs := Contributions(sources, codes, wlMin, wlMax, maxLines, present, read);
    forall i | 0 <= i < |contribs| ensures forall x :: x in contribs[i] ==> Tagged(sources, codes, x) {
      ContributionRows(sources, i, codes, wlMin, wlMax, maxLines, present, read);
    }
    NonEmptyTagged(sources, codes, contribs, n);
  }

  /** Every row of every list handed to the merge is tagged. */
  lemma ReadListsTagged(cfg: Config, table: Table, filter: string, wlMin: real, wlMax: real,
                        maxLines: int, present: SourceConfig -> bool, read: Reader)
    ensures forall a :: 0 <= a < |ReadLists(cfg, table, filter, wlMin, wlMax, maxLines, present, read)| ==>
      ListTagged(cfg.sources, FilterCodes(table, filter), ReadLists(cfg, table, filter, wlMin, wlMax, maxLines, present, read)[a])
  {
    CollectTagged(cfg.sources, FilterCodes(table, filter), wlMin, wlMax, maxLines, present, read, |cfg.sources|);
  }

  /** Only empty lists collect nothing. */
  lemma {:induction false} NonEmptyOfEmpties(contribs: seq<Lines>, n: nat)
    requires n <= |contribs| && forall i :: 0 <= i < |contribs| ==> contribs[i] == []
    ensures NonEmpty(contribs, n) == []
  {
    if n > 0 {
      NonEmptyOfEmpties(contribs, n - 1);
    }
  }

  /** An inverted or empty range collects nothing from any list. */
  lemma CollectInverted(sources: seq<SourceConfig>, codes: seq<int>, wlMin: real, wlMax: real,
                        maxLines: int, present: SourceConfig -> bool, read: Reader, n: nat)
    requires n <= |sources| && wlMin >= wlMax
    ensures Collect(sources, codes, wlMin, wlMax, maxLines, present, read, n) == []
  {
    var contribs := Contributions(sources, codes, wlMin, wlMax, maxLines, present, read);
    NonEmptyOfEmpties(contribs, n);
  }

  /** An inverted or empty range reads nothing from any list. */
  lemma InvertedRangeReadsNothing(cfg: Config, table: Table, filter: string, wlMin: real, wlMax: real,
                                  maxLines: int, present: SourceConfig -> bool, read: Reader)
    requires wlMin >= wlMax
    ensures ReadLists(cfg, table, filter, wlMin, wlMax, maxLines, present, read) == []
  {
    CollectInverted(cfg.sources, FilterCodes(table, filter), wlMin, wlMax, maxLines, present, read, |cfg.sources|);
  }

  /** The merge settings of a configuration: the replacement windows by list position. */
  function MergeSettings(cfg: Config): (m: MergeConfig)
    ensures |m.windows| == |cfg.sources| && m.wlWindowRef == cfg.wlWindowRef && m.wlRef == cfg.wlRef
    ensures forall j :: 0 <= j < |cfg.sources| ==> m.windows[j] == cfg.sources[j].replacementWindow
  {
    MergeConfig(seq(|cfg.sources|, j requires 0 <= j < |cfg.sources| => cfg.sources[j].replacementWindow),
                cfg.wlWindowRef, cfg.wlRef)
  }

  /** The codes of the filter argument; an empty filter means none. */
  function FilterCodes(table: Table, filter: string): seq<int>
  {
    if filter == "" then [] else ElementFilterCodes(table, filter)
  }

  /** What every output row of `extract_lines` says about its origin: the
      position, wavelength rank and merge flag of its list, and a filter code
      under a filter. */
  predicate Provenance(sources: seq<SourceConfig>, codes: seq<int>, x: Line)
  {
    0 <= x.source < |sources| && x.ranks[0] == sources[x.source].rankWl
    && x.mergeable == (sources[x.source].mergeable != 1)
    && (codes != [] ==> x.species in codes)
  }

  lemma TaggedProvenance(sources: seq<SourceConfig>, codes: seq<int>, x: Line)
    requires Tagged(sources, codes, x)
    ensures Provenance(sources, codes, x)
  {
    assert x.ranks[0] == SourceRanks(sources[x.source])[0];
  }

  /** Every row of a list read from a source has that source's provenance. */
  lemma ListProvenance(sources: seq<SourceConfig>, codes: seq<int>, rows: Lines)
    requires ListTagged(sources, codes, rows)
    ensures forall x :: x in rows ==> Provenance(sources, codes, x)
  {
    forall x | x in rows ensures Provenance(sources, codes, x) {
      TaggedProvenance(sources, codes, x);
    }
  }

  /** What the merge step of the extraction returns keeps the provenance
      of the lists it is given, whether there is one list or several. */
  lemma MergedProvenance(m: MergeConfig, sources: seq<SourceConfig>, codes: seq<int>,
                         lists: seq<Lines>, order: seq<nat>, merged: Lines)
    requires m.wlRef != 0.0 && |lists| >= 1
    requires forall a :: 0 <= a < |lists| ==> ListTagged(sources, codes, lists[a])
    requires |lists| == 1 ==> merged == lists[0]
    requires |lists| >= 2 ==> IsArgSort(order, Wavelengths(Concat(lists))) && merged == MergeSorted(m, Permute(Concat(lists), order))
    ensures forall x :: x in merged ==> Provenance(sources, codes, x)
  {
    if |lists| >= 2 {
      MergeKeepsProvenance(m, sources, codes, lists, order);
    } else {
      ListProvenance(sources, codes, lists[0]);
    }
  }

  /** The merge keeps the provenance of the rows it is given. */
  lemma {:induction false} MergeKeepsProvenance(m: MergeConfig, sources: seq<SourceConfig>, codes: seq<int>,
                                                lists: seq<Lines>, order: seq<nat>)
    requires m.wlRef != 0.0 && IsArgSort(order, Wavelengths(Concat(lists)))
    requires forall a :: 0 <= a < |lists| ==> ListTagged(sources, codes, lists[a])
    ensures forall x :: x in MergeSorted(m, Permute(Concat(lists), order)) ==> Provenance(sources, codes, x)
  {
    var all := Concat(lists);
    ArgSortPermutes(all, order);
    MergeSortedOutput(m, Permute(all, order));
    forall x | x in MergeSorted(m, Permute(all, order)) ensures Provenance(sources, codes, x) {
      var y :| y in Permute(all, order) && SameIdentity(x, y);
      assert y in all;
      var a :| 0 <= a < |lists| && y in lists[a];
      assert ListTagged(sources, codes, lists[a]);
      TaggedProvenance(sources, codes, y);
      assert x.ranks[0] == y.ranks[0];
    }
  }

  /** One pass of the loop of `extract_lines`: the rows list `idx` contributes,
      as `Contribution` defines them. */
  method ReadSource(c: SourceConfig, idx: int, codes: seq<int>, wlMin: real, wlMax: real, maxLines: int,
                    present: SourceConfig -> bool, read: Reader) returns (rows: Lines)
    ensures rows == Contribution(c, idx, codes, wlMin, wlMax, maxLines, present, read)
  {
    rows := [];
    if !present(c) {
      return;
    }
    if codes != [] && !(exists s :: s in codes && c.elementMin <= s <= c.elementMax) {
      return;
    }
    var result := QueryRange(read, c, wlMin, wlMax, maxLines);
    if result.Success? && result.value.nlines > 0 {
      rows := FromQueryResult(result.value, idx, Some(SourceRanks(c)), c.mergeable != 1, c.mergeable == 2);
      if codes != [] {
        rows := FilterBySpecies(rows, codes);
      }
    }
  }

  /** One pass of the loop of `extract_lines`: list `idx` is read and its rows
      are appended to `all_lines` when there are any. */
  method ReadNext(sources: seq<SourceConfig>, codes: seq<int>, wlMin: real, wlMax: real, maxLines: int,
                  present: SourceConfig -> bool, read: Reader, lists: seq<Lines>, idx: nat)
    returns (lists': seq<Lines>)
    requires idx < |sources| && lists == Collect(sources, codes, wlMin, wlMax, maxLines, present, read, idx)
    ensures lists' == Collect(sources, codes, wlMin, wlMax, maxLines, present, read, idx + 1)
  {
    var rows := ReadSource(sources[idx], idx, codes, wlMin, wlMax, maxLines, present, read);
    CollectStep(sources, codes, wlMin, wlMax, maxLines, present, read, idx, rows);
    lists' := if |rows| > 0 then lists + [rows] else lists;
  }

  /** The loop of `extract_lines` over the enabled lists, appending each
      non-empty contribution to `all_lines`. */
  method ReadAll(sources: seq<SourceConfig>, codes: seq<int>, wlMin: real, wlMax: real, maxLines: int,
                 present: SourceConfig -> bool, read: Reader) returns (lists: seq<Lines>)
    ensures lists == Collect(sources, codes, wlMin, wlMax, maxLines, present, read, |sources|)
  {
    lists := [];
    for idx := 0 to |sources|
      invariant lists == Collect(sources, codes, wlMin, wlMax, maxLines, present, read, idx)
    {
      lists := ReadNext(sources, codes, wlMin, wlMax, maxLines, present, read, lists, idx);
    }
  }

  /** `extract_lines`. The enabled lists are visited in order, list `idx` being
      tagged with `idx`; their non-empty contributions (`ReadLists`) are merged
      as `_merge_lines_full` does with the configuration's windows, and the
      result is cut to `maxLines` rows. An inverted range gives no rows; under
      a filter every row has a filter code; every row carries the position,
      wavelength rank and merge flag of its list. */
  method ExtractLines(cfg: Config, table: Table, wlMin: real, wlMax: real, filter: string, maxLines: int,
                      present: SourceConfig -> bool, read: Reader) returns (r: Lines, ghost order: seq<nat>)
    requires cfg.wlRef != 0.0
    ensures ReadLists(cfg, table, filter, wlMin, wlMax, maxLines, present, read) == [] ==> r == []
    ensures |ReadLists(cfg, table, filter, wlMin, wlMax, maxLines, present, read)| == 1 ==>
      r == Truncate(ReadLists(cfg, table, filter, wlMin, wlMax, maxLines, present, read)[0], maxLines)
    ensures |ReadLists(cfg, table, filter, wlMin, wlMax, maxLines, present, read)| >= 2 ==>
      IsArgSort(order, Wavelengths(Concat(ReadLists(cfg, table, filter, wlMin, wlMax, maxLines, present, read))))
      && r == Truncate(MergeSorted(MergeSettings(cfg),
                                   Permute(Concat(ReadLists(cfg, table, filter, wlMin, wlMax, maxLines, present, read)), order)),
                       maxLines)
    ensures wlMin >= wlMax ==> r == []
    ensures |r| <= if maxLines < 0 then 0 else maxLines
    ensures forall x :: x in r ==> Provenance(cfg.sources, FilterCodes(table, filter), x)
  {
    var codes: seq<int> := [];
    if filter != "" {
      codes := ParseElementFilter(table, filter);
    }
    assert codes == FilterCodes(table, filter);
    var lists := ReadAll(cfg.sources, codes, wlMin, wlMax, maxLines, present, read);
    assert lists == ReadLists(cfg, table, filter, wlMin, wlMax, maxLines, present, read);
    ReadListsTagged(cfg, table, filter, wlMin, wlMax, maxLines, present, read);
    if wlMin >= wlMax {
      InvertedRangeReadsNothing(cfg, table, filter, wlMin, wlMax, maxLines, present, read);
    }
    if lists == [] {
      return [], [];
    }
    var merged;
    merged, order := MergeLinesFull(lists, MergeSettings(cfg));
    MergedProvenance(MergeSettings(cfg), cfg.sources, codes, lists, order, merged);
    r := Truncate(merged, maxLines);
    TruncateKeeps(merged, maxLines);
  }
}
