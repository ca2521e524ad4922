/** The translation of a stored request into the configuration of a job, in
    vald/job_runner.py: `create_job_config` with its thirteen output-format
    flags and its show-line queries, the choice of the nearest model
    atmosphere, and the text of the `pres_in` file the line preselector
    reads. Reading the settings, finding the user's configuration file and
    listing the models directory are done by the caller; their results are
    parameters here. */
module JobRunner {
  import opened Wrappers
  import opened Text
  import opened Params

  /** One show-line query: centre, window and element. */
  datatype Query = Query(center: real, window: real, element: Value)

  /** `JobConfig`, without the working directory's `Path` type: the directory
      is its text. */
  datatype JobConfig = JobConfig(
    jobId: int, jobDir: string, clientName: string, requestType: string,
    wlStart: real, wlEnd: real, maxLines: int, element: Value, configPath: string,
    formatFlags: seq<int>,
    depthLimit: real, microturbulence: real, teff: real, logg: real, abundances: Value, modelPath: string,
    showlineQueries: seq<Query>)

  /** The flags a new configuration starts with. */
  const DefaultFlags: seq<int> := [0, 0, 0, 0, 0, 0, 0, 0, 0, 0, 0, 1, 0]

  /** A configuration with the given fields and the defaults of the others:
      thirteen flags, all off except isotopic scaling, no element, no
      stellar parameters and no show-line queries. */
  function NewJobConfig(jobId: int, jobDir: string, clientName: string, requestType: string,
                        wlStart: real, wlEnd: real, maxLines: int): (c: JobConfig)
    ensures |c.formatFlags| == 13 && c.formatFlags[11] == 1
    ensures forall j :: 0 <= j < 13 && j != 11 ==> c.formatFlags[j] == 0
    ensures c.element == Str("") && c.configPath == "" && c.showlineQueries == []
    ensures c.depthLimit == 0.0 && c.microturbulence == 0.0 && c.teff == 0.0 && c.logg == 0.0
    ensures c.abundances == Str("") && c.modelPath == ""
  {
    JobConfig(jobId, jobDir, clientName, requestType, wlStart, wlEnd, maxLines, Str(""), "", DefaultFlags,
              0.0, 0.0, 0.0, 0.0, Str(""), "", [])
  }

  /** The maximum number of lines when the settings name none. */
  const DefaultMaxLines := 500000

  /** The parameters behind flags 1 to 5, in flag order. */
  const HaveKeys: seq<string> := ["hrad", "hstark", "hwaals", "hlande", "hterm"]

  /** The parameter name of field `name` of show-line set `i`. */
  function SetKey(name: string, i: nat): string
    requires i < 10
  {
    name + [DigitChar(i)]
  }

  /** The query set `i` of a show-line request contributes: both its
      wavelength and its window present and convertible to floats. */
  function SetQuery(params: Params, i: nat): Option<Query>
    requires i < 10
  {
    var wvl := Get(params, SetKey("wvl", i), Null);
    var win := Get(params, SetKey("win", i), Null);
    if wvl != Null && win != Null && ToFloat(wvl).Some? && ToFloat(win).Some? then
      Some(Query(ToFloat(wvl).value, ToFloat(win).value, Get(params, SetKey("el", i), Str(""))))
    else None
  }

  /** The queries of the first `n` sets, in set order. */
  function QueriesUpTo(params: Params, n: nat): seq<Query>
    requires n <= 5
  {
    if n == 0 then []
    else QueriesUpTo(params, n - 1) + (if SetQuery(params, n - 1).Some? then [SetQuery(params, n - 1).value] else [])
  }

  /** At most one query per set. */
  lemma {:induction false} QueriesBounded(params: Params, n: nat)
    requires n <= 5
    ensures |QueriesUpTo(params, n)| <= n
  {
    if n > 0 {
      QueriesBounded(params, n - 1);
    }
  }

  /** Every query comes from a set that passes. */
  lemma {:induction false} QueriesFromSets(params: Params, n: nat)
    requires n <= 5
    ensures forall q :: q in QueriesUpTo(params, n) ==> exists i :: 0 <= i < n && SetQuery(params, i) == Some(q)
  {
    if n > 0 {
      QueriesFromSets(params, n - 1);
    }
  }

  /** Every set that passes gives a query. */
  lemma {:induction false} SetsGiveQueries(params: Params, n: nat)
    requires n <= 5
    ensures forall i :: 0 <= i < n && SetQuery(params, i).Some? ==> SetQuery(params, i).value in QueriesUpTo(params, n)
  {
    if n > 0 {
      SetsGiveQueries(params, n - 1);
      var prev := QueriesUpTo(params, n - 1);
      var last := if SetQuery(params, n - 1).Some? then [SetQuery(params, n - 1).value] else [];
      assert QueriesUpTo(params, n) == prev + last;
      forall i | 0 <= i < n && SetQuery(params, i).Some? ensures SetQuery(params, i).value in prev + last {
        if i < n - 1 {
          assert SetQuery(params, i).value in prev;
        } else {
          assert SetQuery(params, i).value in last;
        }
      }
    }
  }

  /** The first query is that of the first set that passes, and there is
      none when no set passes. */
  lemma FirstQuery(params: Params, n: nat)
    requires n <= 5
    ensures QueriesUpTo(params, n) != [] ==>
              exists i :: 0 <= i < n && SetQuery(params, i) == Some(QueriesUpTo(params, n)[0])
                          && forall j :: 0 <= j < i ==> SetQuery(params, j).None?
    ensures QueriesUpTo(params, n) == [] <==> forall i :: 0 <= i < n ==> SetQuery(params, i).None?
  {
    NoQueries(params, n);
    FirstQueryFrom(params, n);
  }

  /** No query exactly when no set passes. */
  lemma {:induction false} NoQueries(params: Params, n: nat)
    requires n <= 5
    ensures QueriesUpTo(params, n) == [] <==> forall i :: 0 <= i < n ==> SetQuery(params, i).None?
  {
    if n > 0 {
      NoQueries(params, n - 1);
      var prev := QueriesUpTo(params, n - 1);
      var q := SetQuery(params, n - 1);
      if q.Some? {
        assert QueriesUpTo(params, n) == prev + [q.value];
      } else {
        assert QueriesUpTo(params, n) == prev;
        assert (forall i :: 0 <= i < n ==> SetQuery(params, i).None?)
               <==> (forall i :: 0 <= i < n - 1 ==> SetQuery(params, i).None?);
      }
    }
  }

  /** The first query comes from the first set that passes. */
  lemma {:induction false} FirstQueryFrom(params: Params, n: nat)
    requires n <= 5
    ensures QueriesUpTo(params, n) != [] ==>
              exists i :: 0 <= i < n && SetQuery(params, i) == Some(QueriesUpTo(params, n)[0])
                          && forall j :: 0 <= j < i ==> SetQuery(params, j).None?
  {
    if n > 0 {
      FirstQueryFrom(params, n - 1);
      NoQueries(params, n - 1);
      var prev := QueriesUpTo(params, n - 1);
      var last := if SetQuery(params, n - 1).Some? then [SetQuery(params, n - 1).value] else [];
      assert QueriesUpTo(params, n) == prev + last;
      if prev != [] {
        assert QueriesUpTo(params, n)[0] == prev[0];
      } else if last != [] {
        assert QueriesUpTo(params, n)[0] == SetQuery(params, n - 1).value;
        assert SetQuery(params, n - 1) == Some(QueriesUpTo(params, n)[0]);
      }
    }
  }

  /** The parameters the flags look at, with their defaults: the format,
      the energy unit, the five optional columns, the van der Waals format,
      the medium, the wavelength unit, isotopic scaling and hyperfine
      splitting. */
  datatype FlagInputs = FlagInputs(format: Value, energyUnit: Value, columns: seq<Value>, vdwFormat: Value,
                                   medium: Value, waveUnit: Value, isotopicScaling: Value, hfsSplit: Value)

  function FlagInputsOf(params: Params): (r: FlagInputs)
    ensures |r.columns| == 5
  {
    FlagInputs(Get(params, "format", Str("short")), Get(params, "energyunit", Str("eV")),
               [Get(params, "hrad", Null), Get(params, "hstark", Null), Get(params, "hwaals", Null),
                Get(params, "hlande", Null), Get(params, "hterm", Null)],
               Get(params, "vdwformat", Null), Get(params, "medium", Null), Get(params, "waveunit", Str("angstrom")),
               Get(params, "isotopic_scaling", Null), Get(params, "hfssplit", Null))
  }

  /** Flag 0: the line format and the energy unit together, 0 short, 1 long,
      3 short in 1/cm and 4 long in 1/cm. */
  function FormatFlag(format: Value, energyUnit: Value): (f: int)
    ensures f == 0 || f == 1 || f == 3 || f == 4
    ensures (f == 3 || f == 4) <==> energyUnit == Str("1/cm")
    ensures (f == 1 || f == 4) <==> format == Str("long")
  {
    if energyUnit == Str("1/cm") then (if format == Str("long") then 4 else 3)
    else (if format == Str("long") then 1 else 0)
  }

  /** The flag of a yes-or-no choice. */
  function Bit(b: bool): int { if b then 1 else 0 }

  /** Flag 10: the wavelength unit, 0 Å, 1 nm and 2 1/cm. */
  function WaveUnitFlag(waveUnit: Value): (f: int)
    ensures f == 0 || f == 1 || f == 2
    ensures f == 1 <==> waveUnit == Str("nm")
    ensures f == 2 <==> waveUnit == Str("1/cm")
  {
    if waveUnit == Str("nm") then 1 else if waveUnit == Str("1/cm") then 2 else 0
  }

  /** What the thirteen output-format flags say about the parameters: flag
      0 the format and energy unit, flags 1 to 5 the optional columns, 6 the
      extended van der Waals format, 7 and 8 unused, 9 the medium, 10 the
      wavelength unit, 11 isotopic scaling, 12 hyperfine splitting. Every
      flag but 0 and 10 is 0 or 1. */
  predicate FlagsDescribe(v: FlagInputs, flags: seq<int>)
    requires |v.columns| == 5
  {
    && |flags| == 13
    && flags[0] == FormatFlag(v.format, v.energyUnit)
    && flags[1] == Bit(Truthy(v.columns[0])) && flags[2] == Bit(Truthy(v.columns[1]))
    && flags[3] == Bit(Truthy(v.columns[2])) && flags[4] == Bit(Truthy(v.columns[3]))
    && flags[5] == Bit(Truthy(v.columns[4]))
    && flags[6] == Bit(v.vdwFormat == Str("extended"))
    && flags[7] == 0 && flags[8] == 0
    && flags[9] == Bit(v.medium == Str("vacuum"))
    && flags[10] == WaveUnitFlag(v.waveUnit)
    && flags[11] == Bit(v.isotopicScaling != Str("off"))
    && flags[12] == Bit(Truthy(v.hfsSplit))
  }

  /** The flags part of `create_job_config`: one flag per question, in flag
      order, flags 7 and 8 always off. */
  method BuildFlags(v: FlagInputs) returns (flags: seq<int>)
    requires |v.columns| == 5
    ensures FlagsDescribe(v, flags)
  {
    var format := FormatFlag(v.format, v.energyUnit);
    var rad, stark, waals, lande, term := Bit(Truthy(v.columns[0])), Bit(Truthy(v.columns[1])),
      Bit(Truthy(v.columns[2])), Bit(Truthy(v.columns[3])), Bit(Truthy(v.columns[4]));
    var extendedVdw := Bit(v.vdwFormat == Str("extended"));
    var vacuum := Bit(v.medium == Str("vacuum"));
    var waveUnit := WaveUnitFlag(v.waveUnit);
    var isotopic := Bit(v.isotopicScaling != Str("off"));
    var hfs := Bit(Truthy(v.hfsSplit));
    flags := [format, rad, stark, waals, lande, term, extendedVdw, 0, 0, vacuum, waveUnit, isotopic, hfs];
  }

  /** Each flag answers one question about the parameters, and the list is
      always thirteen long with flags 7 and 8 off. */
  lemma FlagsMeaning(v: FlagInputs, flags: seq<int>)
    requires |v.columns| == 5 && FlagsDescribe(v, flags)
    ensures |flags| == 13 && flags[7] == 0 && flags[8] == 0
    ensures (flags[0] == 3 || flags[0] == 4) <==> v.energyUnit == Str("1/cm")
    ensures (flags[0] == 1 || flags[0] == 4) <==> v.format == Str("long")
    ensures forall j :: 1 <= j <= 5 ==> (flags[j] == 1 <==> Truthy(v.columns[j - 1]))
    ensures flags[6] == 1 <==> v.vdwFormat == Str("extended")
    ensures flags[9] == 1 <==> v.medium == Str("vacuum")
    ensures flags[11] == 0 <==> v.isotopicScaling == Str("off")
    ensures flags[12] == 1 <==> Truthy(v.hfsSplit)
    ensures forall j :: 1 <= j < 13 && j != 10 ==> flags[j] == 0 || flags[j] == 1
  {
  }

  /** The description leaves no freedom: for given inputs exactly one list
      of flags meets it. */
  lemma FlagsDetermine(v: FlagInputs, flags1: seq<int>, flags2: seq<int>)
    requires |v.columns| == 5 && FlagsDescribe(v, flags1) && FlagsDescribe(v, flags2)
    ensures flags1 == flags2
  {
    forall j | 0 <= j < 13 ensures flags1[j] == flags2[j] {
      if 1 <= j <= 5 {
        assert flags1[j] == 1 <==> flags2[j] == 1;
      }
    }
  }

  /** The show-line part of `create_job_config`: the queries of the five
      sets, in order. */
  method CollectQueries(params: Params) returns (queries: seq<Query>)
    ensures queries == QueriesUpTo(params, 5)
  {
    queries := [];
    for i := 0 to 5
      invariant queries == QueriesUpTo(params, i)
    {
      var wvl := Get(params, SetKey("wvl", i), Null);
      var win := Get(params, SetKey("win", i), Null);
      var el := Get(params, SetKey("el", i), Str(""));
      if wvl != Null && win != Null {
        var w := ToFloat(wvl);
        var n := ToFloat(win);
        if w.Some? && n.Some? {
          queries := queries + [Query(w.value, n.value, el)];
        }
      }
    }
  }

  /** The stellar parameters of a stellar extraction: depth limit,
      microturbulence, temperature and gravity, with their defaults; `None`
      when one of them is not a number. */
  function StellarParams(params: Params): (r: Option<(real, real, real, real)>)
    ensures r.Some? <==> ToFloat(Get(params, "dlimit", Num(0.01))).Some? && ToFloat(Get(params, "micturb", Num(2.0))).Some?
                         && ToFloat(Get(params, "teff", Int(5800))).Some? && ToFloat(Get(params, "logg", Num(4.5))).Some?
    ensures r.Some? ==> r.value.0 == ToFloat(Get(params, "dlimit", Num(0.01))).value
                        && r.value.1 == ToFloat(Get(params, "micturb", Num(2.0))).value
                        && r.value.2 == ToFloat(Get(params, "teff", Int(5800))).value
                        && r.value.3 == ToFloat(Get(params, "logg", Num(4.5))).value
    ensures "dlimit" !in params && "micturb" !in params && "teff" !in params && "logg" !in params ==>
              r == Some((0.01, 2.0, 5800.0, 4.5))
  {
    var dlimit := ToFloat(Get(params, "dlimit", Num(0.01)));
    var micturb := ToFloat(Get(params, "micturb", Num(2.0)));
    var teff := ToFloat(Get(params, "teff", Int(5800)));
    var logg := ToFloat(Get(params, "logg", Num(4.5)));
    if dlimit.Some? && micturb.Some? && teff.Some? && logg.Some? then
      Some((dlimit.value, micturb.value, teff.value, logg.value))
    else None
  }

  /** Whether every `float()` of `create_job_config` succeeds. */
  predicate FloatsConvert(params: Params, reqtype: string)
  {
    ToFloat(Get(params, "stwvl", Int(0))).Some? && ToFloat(Get(params, "endwvl", Int(0))).Some?
    && (reqtype == "extractstellar" ==> StellarParams(params).Some?)
  }

  const FloatError := "could not convert to float"

  /** `create_job_config`: the configuration of a job for a request's
      parameters and type. The only failure is a `float()` that raises; the
      path of the configuration file comes from `configPathFor`, told
      whether the personal configuration is asked for. */
  method CreateJobConfig(params: Params, reqtype: string, backendId: int, jobDir: string, clientName: string,
                         maxLinesSetting: Option<int>, configPathFor: bool -> string)
    returns (r: Result<JobConfig, string>)
    ensures r.Success? <==> FloatsConvert(params, reqtype)
    ensures r.Failure? ==> r.error == FloatError
    ensures r.Success? ==>
      && r.value.jobId == backendId && r.value.jobDir == jobDir && r.value.clientName == clientName
      && r.value.requestType == reqtype
      && FlagsDescribe(FlagInputsOf(params), r.value.formatFlags)
      && r.value.configPath == configPathFor(Get(params, "pconf", Str("default")) == Str("personal"))
    // the line limit: none for a stellar extraction
    ensures r.Success? ==>
      r.value.maxLines == (if reqtype == "extractstellar" then 0
                           else if maxLinesSetting.Some? then maxLinesSetting.value else DefaultMaxLines)
    // the stellar parameters, filled only for a stellar extraction
    ensures r.Success? && reqtype == "extractstellar" ==>
      (r.value.depthLimit, r.value.microturbulence, r.value.teff, r.value.logg) == StellarParams(params).value
      && r.value.abundances == Get(params, "chemcomp", Str(""))
    ensures r.Success? && reqtype != "extractstellar" ==>
      r.value.depthLimit == 0.0 && r.value.microturbulence == 0.0 && r.value.teff == 0.0 && r.value.logg == 0.0
      && r.value.abundances == Str("")
    ensures r.Success? ==> r.value.modelPath == ""
    // the queries, collected only for a show-line request; the first one
    // gives the range and the element
    ensures r.Success? ==> r.value.showlineQueries == (if reqtype == "showline" then QueriesUpTo(params, 5) else [])
    ensures r.Success? && r.value.showlineQueries != [] ==>
      r.value.wlStart == r.value.showlineQueries[0].center && r.value.wlEnd == r.value.showlineQueries[0].window
      && r.value.element == r.value.showlineQueries[0].element
    ensures r.Success? && r.value.showlineQueries == [] ==>
      r.value.wlStart == ToFloat(Get(params, "stwvl", Int(0))).value
      && r.value.wlEnd == ToFloat(Get(params, "endwvl", Int(0))).value
      && r.value.element == (if reqtype == "extractelement" then Get(params, "elmion", Str("")) else Str(""))
  {
    var start := ToFloat(Get(params, "stwvl", Int(0)));
    var end := ToFloat(Get(params, "endwvl", Int(0)));
    if start.None? || end.None? {
      return Failure(FloatError);
    }
    var config := NewJobConfig(backendId, jobDir, clientName, reqtype, start.value, end.value,
                               if maxLinesSetting.Some? then maxLinesSetting.value else DefaultMaxLines);

    if reqtype == "extractelement" {
      config := config.(element := Get(params, "elmion", Str("")));
    }

    var pconf := Get(params, "pconf", Str("default"));
    var usePersonal := pconf == Str("personal");
    config := config.(configPath := configPathFor(usePersonal));

    var flags := BuildFlags(FlagInputsOf(params));
    config := config.(formatFlags := flags);

    if reqtype == "extractstellar" {
      var stellar := WithStellar(config, params);
      if stellar.None? {
        return Failure(FloatError);
      }
      config := stellar.value;
    }

    if reqtype == "showline" {
      config := WithQueries(config, params);
    }
    return Success(config);
  }

  /** The stellar block of `create_job_config`: no line limit, and the four
      stellar parameters and the abundances from the request, or nothing
      when one of them is not a number. */
  method WithStellar(config: JobConfig, params: Params) returns (r: Option<JobConfig>)
    ensures r.Some? <==> StellarParams(params).Some?
    ensures r.Some? ==>
      r.value == config.(maxLines := 0, depthLimit := StellarParams(params).value.0,
                         microturbulence := StellarParams(params).value.1, teff := StellarParams(params).value.2,
                         logg := StellarParams(params).value.3, abundances := Get(params, "chemcomp", Str("")))
  {
    var stellar := StellarParams(params);
    if stellar.None? {
      return None;
    }
    return Some(config.(maxLines := 0, depthLimit := stellar.value.0, microturbulence := stellar.value.1,
                        teff := stellar.value.2, logg := stellar.value.3, abundances := Get(params, "chemcomp", Str(""))));
  }

  /** The show-line block of `create_job_config`: the queries, the first of
      which gives the range and the element. */
  method WithQueries(config: JobConfig, params: Params) returns (c: JobConfig)
    ensures c.showlineQueries == QueriesUpTo(params, 5)
    ensures c.showlineQueries == [] ==> c == config.(showlineQueries := [])
    ensures c.showlineQueries != [] ==>
      c == config.(showlineQueries := c.showlineQueries, wlStart := c.showlineQueries[0].center,
                   wlEnd := c.showlineQueries[0].window, element := c.showlineQueries[0].element)
  {
    var queries := CollectQueries(params);
    c := config.(showlineQueries := queries);
    if queries != [] {
      c := c.(wlStart := queries[0].center, wlEnd := queries[0].window, element := queries[0].element);
    }
  }

  /** `_parse_showline_queries`: the configuration's queries, or else the one
      query its range and element make. */
  function ParseShowlineQueries(c: JobConfig): (r: seq<Query>)
    ensures r != []
    ensures c.showlineQueries != [] ==> r == c.showlineQueries
    ensures c.showlineQueries == [] ==> r == [Query(c.wlStart, c.wlEnd, c.element)]
  {
    if c.showlineQueries != [] then c.showlineQueries else [Query(c.wlStart, c.wlEnd, c.element)]
  }

  /** Python's `round` to an integer: the nearest integer, and the even one
      of the two nearest at a tie. */
  function RoundHalfEven(x: real): (n: int)
    ensures x - 0.5 <= n as real <= x + 0.5
    ensures (n as real - x == 0.5 || x - n as real == 0.5) ==> n % 2 == 0
  {
    var f := x.Floor;
    var d := x - f as real;
    if d < 0.5 then f else if d > 0.5 then f + 1 else if f % 2 == 0 then f else f + 1
  }

  function Abs(x: int): nat { if x < 0 then -x else x }

  /** `s[i:j]` of a Python string, for `i <= j`: the bounds are cut to the length. */
  function Slice(s: string, i: nat, j: nat): (r: string)
    requires i <= j
    ensures |r| <= j - i
  {
    if |s| <= i then [] else if |s| <= j then s[i..] else s[i..j]
  }

  /** `Path(name).suffix == ".krz"`: the name ends with ".krz" and has at
      least one character before it, since a leading dot starts no suffix. */
  predicate IsKrz(name: string) { |name| > 4 && EndsWith(name, ".krz") }

  /** The temperature and ten times the gravity a model's name carries, as
      in "05500g35.krz": the first five characters of the stem and its
      seventh and eighth; `None` when either is not a number. */
  function ModelPoint(name: string): (r: Option<(int, int)>)
    ensures r.Some? ==> IsKrz(name)
  {
    if !IsKrz(name) then None
    else
      var stem := name[..|name| - 4];
      var t := ParseInt(Slice(stem, 0, 5));
      var g := ParseInt(Slice(stem, 6, 8));
      if t.Some? && g.Some? then Some((t.value, g.value)) else None
  }

  /** The distance of a model from the target: a step of 0.1 in log g weighs
      as much as 100 K. */
  function Distance(p: (int, int), iteff: int, ilogg: int): nat
  {
    Abs(p.0 - iteff) + Abs(p.1 - ilogg) * 100
  }

  /** The point of each name, in order. */
  function ModelPoints(names: seq<string>): (r: seq<Option<(int, int)>>)
    ensures |r| == |names|
  {
    if names == [] then [] else [ModelPoint(names[0])] + ModelPoints(names[1..])
  }

  lemma {:induction false} ModelPointsAt(names: seq<string>, k: nat)
    requires k < |names|
    ensures ModelPoints(names)[k] == ModelPoint(names[k])
  {
    if k > 0 {
      ModelPointsAt(names[1..], k - 1);
    }
  }

  /** Entry `j` is a model at the least distance among the first `n`, and
      no earlier model is as near. */
  predicate NearestAmong(points: seq<Option<(int, int)>>, n: nat, j: nat, iteff: int, ilogg: int)
    requires n <= |points|
  {
    j < n && points[j].Some?
    && (forall k :: 0 <= k < n && points[k].Some? ==>
          Distance(points[j].value, iteff, ilogg) <= Distance(points[k].value, iteff, ilogg))
    && (forall k :: 0 <= k < j && points[k].Some? ==>
          Distance(points[k].value, iteff, ilogg) > Distance(points[j].value, iteff, ilogg))
  }

  /** At most one entry is the nearest. */
  lemma NearestIsUnique(points: seq<Option<(int, int)>>, j1: nat, j2: nat, iteff: int, ilogg: int)
    requires NearestAmong(points, |points|, j1, iteff, ilogg) && NearestAmong(points, |points|, j2, iteff, ilogg)
    ensures j1 == j2
  {
  }

  /** A model at `i` that is nearer than the nearest so far, or the first
      model, is the nearest among the first `i + 1`. */
  lemma NearestFromHere(points: seq<Option<(int, int)>>, i: nat, best: nat, iteff: int, ilogg: int, first: bool)
    requires i < |points| && points[i].Some?
    requires first ==> forall k :: 0 <= k < i ==> points[k].None?
    requires !first ==> NearestAmong(points, i, best, iteff, ilogg)
                        && Distance(points[i].value, iteff, ilogg) < Distance(points[best].value, iteff, ilogg)
    ensures NearestAmong(points, i + 1, i, iteff, ilogg)
  {
  }

  /** An entry at `i` that is no model, or no nearer than the nearest so
      far, leaves the nearest as it was. */
  lemma NearestStays(points: seq<Option<(int, int)>>, i: nat, best: nat, iteff: int, ilogg: int)
    requires i < |points| && NearestAmong(points, i, best, iteff, ilogg)
    requires points[i].Some? ==> Distance(points[i].value, iteff, ilogg) >= Distance(points[best].value, iteff, ilogg)
    ensures NearestAmong(points, i + 1, best, iteff, ilogg)
  {
  }

  /** The file name of the exact model for a target. */
  function TargetName(iteff: int, ilogg: int): string
  {
    FormatPadded(iteff, 5) + "g" + FormatPadded(ilogg, 2) + ".krz"
  }

  /** The target's own file name reads back as the target, for a
      temperature of at most five digits and a gravity of at most two. */
  lemma TargetNameReadsBack(iteff: int, ilogg: int)
    requires 0 <= iteff < 100000 && 0 <= ilogg < 100
    ensures ModelPoint(TargetName(iteff, ilogg)) == Some((iteff, ilogg))
  {
    assert Pow10(5) == 100000 && Pow10(2) == 100;
    NatToStringShorter(iteff, 4);
    NatToStringShorter(ilogg, 1);
    var t := ZeroPad(iteff, 5);
    var g := ZeroPad(ilogg, 2);
    var name := TargetName(iteff, ilogg);
    assert name == t + "g" + g + ".krz";
    assert name[|name| - 4..] == ".krz";
    var stem := name[..|name| - 4];
    assert stem == t + "g" + g;
    assert Slice(stem, 0, 5) == t;
    assert Slice(stem, 6, 8) == g;
    ParseIntOfDigits(t);
    ParseIntOfDigits(g);
  }

  /** The suffix test and the two `int()` conversions of one name. */
  method ReadModelPoint(names: seq<string>, i: nat) returns (p: Option<(int, int)>)
    requires i < |names|
    ensures p == ModelPoints(names)[i]
  {
    p := ModelPoint(names[i]);
    ModelPointsAt(names, i);
  }

  /** One pass of the search: the name at `i` is read and kept when it is the
      first model or nearer than the best so far. */
  method NearestStep(iteff: int, ilogg: int, names: seq<string>, modelsDir: string, i: nat,
                     bestMatch: Option<string>, bestDist: int, ghost best: nat, ghost points: seq<Option<(int, int)>>)
    returns (bestMatch': Option<string>, bestDist': int, ghost best': nat)
    requires i < |names| && points == ModelPoints(names)
    requires bestMatch.None? <==> forall k :: 0 <= k < i ==> points[k].None?
    requires bestMatch.Some? ==>
               NearestAmong(points, i, best, iteff, ilogg) && bestMatch.value == modelsDir + "/" + names[best]
               && bestDist == Distance(points[best].value, iteff, ilogg)
    ensures bestMatch'.None? <==> forall k :: 0 <= k < i + 1 ==> points[k].None?
    ensures bestMatch'.Some? ==>
              NearestAmong(points, i + 1, best', iteff, ilogg) && bestMatch'.value == modelsDir + "/" + names[best']
              && bestDist' == Distance(points[best'].value, iteff, ilogg)
  {
    bestMatch', bestDist', best' := bestMatch, bestDist, best;
    var point := ReadModelPoint(names, i);
    if point.Some? {
      var dist := Distance(point.value, iteff, ilogg);
      if bestMatch.None? || dist < bestDist {
        NearestFromHere(points, i, best, iteff, ilogg, bestMatch.None?);
        bestDist' := dist;
        bestMatch' := Some(modelsDir + "/" + names[i]);
        best' := i;
      } else {
        NearestStays(points, i, best, iteff, ilogg);
      }
    } else if bestMatch.Some? {
      NearestStays(points, i, best, iteff, ilogg);
    }
  }

  /** The search of `_find_model` for a rounded target: the nearest model
      among the names, the first of equally near ones, or the exact name of
      the target when no name is a model. */
  method NearestModel(iteff: int, ilogg: int, names: seq<string>, modelsDir: string) returns (path: string)
    ensures (forall k :: 0 <= k < |names| ==> ModelPoints(names)[k].None?) ==>
              path == modelsDir + "/" + TargetName(iteff, ilogg)
    ensures (exists k :: 0 <= k < |names| && ModelPoints(names)[k].Some?) ==>
              exists j: nat :: NearestAmong(ModelPoints(names), |names|, j, iteff, ilogg) && path == modelsDir + "/" + names[j]
  {
    ghost var points := ModelPoints(names);
    var bestMatch: Option<string> := None;
    var bestDist := 0;
    ghost var best: nat := 0;
    var i := 0;
    while i < |names|
      invariant 0 <= i <= |names|
      invariant bestMatch.None? <==> forall k :: 0 <= k < i ==> points[k].None?
      invariant bestMatch.Some? ==>
                  NearestAmong(points, i, best, iteff, ilogg) && bestMatch.value == modelsDir + "/" + names[best]
                  && bestDist == Distance(points[best].value, iteff, ilogg)
    {
      bestMatch, bestDist, best := NearestStep(iteff, ilogg, names, modelsDir, i, bestMatch, bestDist, best, points);
      i := i + 1;
    }
    if bestMatch.Some? {
      assert NearestAmong(points, |names|, best, iteff, ilogg);
      return bestMatch.value;
    }
    return modelsDir + "/" + TargetName(iteff, ilogg);
  }

  /** `_find_model`: the target is the temperature and ten times the gravity,
      rounded; `models` is the list of file names in the models directory,
      `None` when the directory does not exist. */
  method FindModel(teff: real, logg: real, models: Option<seq<string>>, modelsDir: string) returns (path: string)
    ensures var names := if models.Some? then models.value else [];
            var iteff := RoundHalfEven(teff);
            var ilogg := RoundHalfEven(logg * 10.0);
            && ((forall k :: 0 <= k < |names| ==> ModelPoints(names)[k].None?) ==>
                  path == modelsDir + "/" + TargetName(iteff, ilogg))
            && ((exists k :: 0 <= k < |names| && ModelPoints(names)[k].Some?) ==>
                  exists j: nat :: NearestAmong(ModelPoints(names), |names|, j, iteff, ilogg)
                                   && path == modelsDir + "/" + names[j])
  {
    var iteff := RoundHalfEven(teff);
    var ilogg := RoundHalfEven(logg * 10.0);
    var names := if models.Some? then models.value else [];
    path := NearestModel(iteff, ilogg, names, modelsDir);
  }

  /** The flags line: the flags' texts joined by single spaces. */
  function FlagsLine(flags: seq<int>): string
  {
    Join(IntStrings(flags), " ")
  }

  /** Splitting the flags line at spaces and reading each piece as an
      integer gives back the flags. */
  lemma FlagsLineRoundTrip(flags: seq<int>)
    requires flags != []
    ensures |SplitOn(FlagsLine(flags), ' ')| == |flags|
    ensures forall k :: 0 <= k < |flags| ==> ParseInt(SplitOn(FlagsLine(flags), ' ')[k]) == Some(flags[k])
  {
    var parts := IntStrings(flags);
    forall k | 0 <= k < |parts| ensures ' ' !in parts[k] {
      IntToStringChars(flags[k]);
    }
    SplitJoin(parts, ' ');
    forall k | 0 <= k < |flags| ensures ParseInt(parts[k]) == Some(flags[k]) {
      ParseIntOfIntToString(flags[k]);
    }
  }

  /** The lines of `_write_pres_in`: the range, the line limit, the element,
      the quoted configuration path (the default one when the configuration
      names none) and the flags. `floatText` is the text Python gives a
      float. */
  function PresInLines(c: JobConfig, defaultConfig: string, floatText: real -> string): (r: seq<string>)
    ensures |r| == 5
    ensures r[0] == floatText(c.wlStart) + "," + floatText(c.wlEnd)
    ensures r[1] == IntToString(c.maxLines) && r[2] == ValueText(c.element, floatText)
    ensures r[3] == "'" + (if c.configPath == "" then defaultConfig else c.configPath) + "'"
    ensures r[4] == FlagsLine(c.formatFlags)
  {
    var configPath := if c.configPath != "" then c.configPath else defaultConfig;
    [floatText(c.wlStart) + "," + floatText(c.wlEnd),
     IntToString(c.maxLines),
     ValueText(c.element, floatText),
     "'" + configPath + "'",
     FlagsLine(c.formatFlags)]
  }

  /** The text of the `pres_in` file: each line ended by a newline. */
  function PresInText(c: JobConfig, defaultConfig: string, floatText: real -> string): string
  {
    UnlinesText(PresInLines(c, defaultConfig, floatText))
  }

  /** The file holds exactly the five lines, as long as no field brings a
      line break of its own, and its last line gives back the flags. */
  lemma PresInFiveLines(c: JobConfig, defaultConfig: string, floatText: real -> string)
    requires '\n' !in floatText(c.wlStart) && '\n' !in floatText(c.wlEnd)
    requires '\n' !in ValueText(c.element, floatText)
    requires '\n' !in c.configPath && '\n' !in defaultConfig
    requires c.formatFlags != []
    ensures SplitOn(PresInText(c, defaultConfig, floatText), '\n') == PresInLines(c, defaultConfig, floatText) + [""]
    ensures var flagsLine := SplitOn(PresInText(c, defaultConfig, floatText), '\n')[4];
            |SplitOn(flagsLine, ' ')| == |c.formatFlags|
            && forall k :: 0 <= k < |c.formatFlags| ==> ParseInt(SplitOn(flagsLine, ' ')[k]) == Some(c.formatFlags[k])
  {
    var l := PresInLines(c, defaultConfig, floatText);
    forall j | 0 <= j < |l| ensures '\n' !in l[j] {
      if j == 1 {
        IntToStringChars(c.maxLines);
      } else if j == 4 {
        var parts := IntStrings(c.formatFlags);
        forall k | 0 <= k < |parts| ensures '\n' !in parts[k] {
          IntToStringChars(c.formatFlags[k]);
        }
        JoinHasNoNewline(parts);
      }
    }
    SplitUnlines(l);
    FlagsLineRoundTrip(c.formatFlags);
  }

  lemma {:induction false} JoinHasNoNewline(parts: seq<string>)
    requires forall k :: 0 <= k < |parts| ==> '\n' !in parts[k]
    ensures '\n' !in Join(parts, " ")
    decreases |parts|
  {
    if |parts| > 1 {
      JoinHasNoNewline(parts[1..]);
    }
  }
}
