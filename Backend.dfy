/** The legacy e-mail request text of vald/backend.py and the six-digit
    backend ID of a request. The text is built as a list of lines and joined
    by newlines; most lines are formatted text, but a few are parameter
    values appended as they are, and joining fails (Python's `TypeError`)
    when one of those is not a string. The SHA-256 digest is a parameter. */
module Backend {
  import opened Wrappers
  import opened Text
  import opened Params
  import CleanupOldResults

  /** The request types that are extractions. */
  predicate IsExtraction(reqtype: string)
  {
    reqtype == "extractall" || reqtype == "extractelement" || reqtype == "extractstellar"
  }

  /** `type_map.get(reqtype, reqtype)`. */
  function TypeName(reqtype: string): string
  {
    if reqtype == "extractall" then "extract all"
    else if reqtype == "extractelement" then "extract element"
    else if reqtype == "extractstellar" then "extract stellar"
    else if reqtype == "showline" then "show line"
    else reqtype
  }

  /** The flags and their labels, in the order they are written. */
  const FlagLabels: seq<(string, string)> :=
    [("hfssplit", "HFS splitting"), ("hrad", "have rad"), ("hstark", "have stark"),
     ("hwaals", "have waals"), ("hlande", "have lande"), ("hterm", "have term")]

  /** The line a flag adds: its label when it is `True`, the value itself
      when it is a non-empty string, nothing otherwise. */
  function FlagLine(params: Params, k: nat): seq<Value>
    requires k < |FlagLabels|
  {
    var v := Get(params, FlagLabels[k].0, Null);
    if v == Bool(true) then [Str(FlagLabels[k].1)]
    else if v.Str? && v.s != [] then [v]
    else []
  }

  /** The lines of the first `n` flags. */
  function FlagLinesUpTo(params: Params, n: nat): seq<Value>
    requires n <= |FlagLabels|
  {
    if n == 0 then [] else FlagLinesUpTo(params, n - 1) + FlagLine(params, n - 1)
  }

  /** The text an f-string gives a value. */
  function T(v: Value, floatText: real -> string): string
  {
    ValueText(v, floatText)
  }

  /** The opening lines: the marker, the type and the configuration. */
  function HeadLines(params: Params, reqtype: string, floatText: real -> string): seq<Value>
  {
    [Str("begin request"), Str(TypeName(reqtype)), Str(T(Get(params, "pconf", Str("default")), floatText) + " configuration")]
  }

  /** FTP delivery and the line format, for extractions only. */
  function ExtractionLines(params: Params, reqtype: string, floatText: real -> string): seq<Value>
  {
    if IsExtraction(reqtype) then
      [Str("via ftp")] + (if "format" in params then [Str(T(params["format"], floatText) + " format")] else [])
    else []
  }

  /** The units, the medium, isotopic scaling and the van der Waals format,
      each only when the parameter is there (the last one also not when it
      is "default"). */
  function UnitLines(params: Params, floatText: real -> string): seq<Value>
  {
    OptionLine(params, "waveunit", "waveunit ", floatText) + OptionLine(params, "energyunit", "energyunit ", floatText)
    + OptionLine(params, "medium", "medium ", floatText) + OptionLine(params, "isotopic_scaling", "isotopic scaling ", floatText)
    + VdwLines(params, floatText)
  }

  /** A parameter's line after its label, when the parameter is there. */
  function OptionLine(params: Params, key: string, caption: string, floatText: real -> string): seq<Value>
  {
    if key in params then [Str(caption + T(params[key], floatText))] else []
  }

  function VdwLines(params: Params, floatText: real -> string): seq<Value>
  {
    if "vdwformat" in params && params["vdwformat"] != Str("default") then
      [Str(T(params["vdwformat"], floatText) + " waals")]
    else []
  }

  /** A pair of parameters as "a, b", with a trailing comma when asked. */
  function PairLine(params: Params, a: string, b: string, comma: bool, floatText: real -> string): seq<Value>
  {
    if a in params && b in params then
      [Str(T(params[a], floatText) + ", " + T(params[b], floatText) + (if comma then "," else ""))]
    else []
  }

  /** A parameter appended as it is, when it is there. */
  function RawLine(params: Params, key: string): seq<Value>
  {
    if key in params then [params[key]] else []
  }

  /** Show-line set `i`: "wvl, win," when both are given, then the element
      when it is not empty. */
  function ShowSetLines(params: Params, i: nat, floatText: real -> string): seq<Value>
    requires i < 10
  {
    var wvl := Get(params, "wvl" + [DigitChar(i)], Null);
    var win := Get(params, "win" + [DigitChar(i)], Null);
    var el := Get(params, "el" + [DigitChar(i)], Str(""));
    if wvl != Null && win != Null then
      [Str(T(wvl, floatText) + ", " + T(win, floatText) + ",")] + (if Truthy(el) then [el] else [])
    else []
  }

  function ShowLinesUpTo(params: Params, n: nat, floatText: real -> string): seq<Value>
    requires n <= 5
  {
    if n == 0 then [] else ShowLinesUpTo(params, n - 1, floatText) + ShowSetLines(params, n - 1, floatText)
  }

  /** The lines particular to the request type. */
  function BodyLines(params: Params, reqtype: string, floatText: real -> string): seq<Value>
  {
    if reqtype == "extractall" then PairLine(params, "stwvl", "endwvl", false, floatText)
    else if reqtype == "extractelement" then
      PairLine(params, "stwvl", "endwvl", true, floatText) + RawLine(params, "elmion")
    else if reqtype == "extractstellar" then
      PairLine(params, "stwvl", "endwvl", true, floatText) + PairLine(params, "dlimit", "micturb", true, floatText)
      + PairLine(params, "teff", "logg", true, floatText) + RawLine(params, "chemcomp")
    else if reqtype == "showline" then ShowLinesUpTo(params, 5, floatText)
    else []
  }

  /** All the lines of a request, in order. */
  function RequestLines(params: Params, reqtype: string, floatText: real -> string): seq<Value>
  {
    HeadLines(params, reqtype, floatText) + ExtractionLines(params, reqtype, floatText) + UnitLines(params, floatText)
    + FlagLinesUpTo(params, |FlagLabels|) + BodyLines(params, reqtype, floatText) + [Str("end request")]
  }

  predicate AllText(lines: seq<Value>) { forall k :: 0 <= k < |lines| ==> lines[k].Str? }

  function Texts(lines: seq<Value>): (r: seq<string>)
    requires AllText(lines)
    ensures |r| == |lines| && forall k :: 0 <= k < |lines| ==> r[k] == lines[k].s
  {
    seq(|lines|, k requires 0 <= k < |lines| => lines[k].s)
  }

  /** `'\n'.join(lines) + '\n'`, failing as Python does on a line that is not
      a string. */
  function JoinRequest(lines: seq<Value>): Result<string, string>
  {
    if AllText(lines) then Success(Join(Texts(lines), "\n") + "\n") else Failure("TypeError")
  }

  /** `format_request_file`: the lines of each section appended in turn,
      then joined. */
  method FormatRequestFile(params: Params, reqtype: string, floatText: real -> string) returns (r: Result<string, string>)
    ensures r == JoinRequest(RequestLines(params, reqtype, floatText))
  {
    var lines := HeadSection(params, reqtype, floatText);
    var units := UnitSection(params, floatText);
    lines := lines + units;
    var flags := FlagSection(params);
    lines := lines + flags;
    var body := TypeLines(params, reqtype, floatText);
    lines := lines + body;
    lines := lines + [Str("end request")];
    r := JoinRequest(lines);
  }

  /** The opening of `format_request_file`, with the extraction options. */
  method HeadSection(params: Params, reqtype: string, floatText: real -> string) returns (lines: seq<Value>)
    ensures lines == HeadLines(params, reqtype, floatText) + ExtractionLines(params, reqtype, floatText)
  {
    lines := [Str("begin request")];
    lines := lines + [Str(TypeName(reqtype))];
    var pconf := Get(params, "pconf", Str("default"));
    lines := lines + [Str(T(pconf, floatText) + " configuration")];
    if reqtype == "extractall" || reqtype == "extractelement" || reqtype == "extractstellar" {
      lines := lines + [Str("via ftp")];
      if "format" in params {
        lines := lines + [Str(T(params["format"], floatText) + " format")];
      }
    }
  }

  /** The units, medium, isotopic scaling and van der Waals lines. */
  method UnitSection(params: Params, floatText: real -> string) returns (lines: seq<Value>)
    ensures lines == UnitLines(params, floatText)
  {
    lines := [];
    if "waveunit" in params {
      lines := lines + [Str("waveunit " + T(params["waveunit"], floatText))];
    }
    ghost var done := OptionLine(params, "waveunit", "waveunit ", floatText);
    assert lines == done;
    if "energyunit" in params {
      lines := lines + [Str("energyunit " + T(params["energyunit"], floatText))];
    }
    done := done + OptionLine(params, "energyunit", "energyunit ", floatText);
    assert lines == done;
    if "medium" in params {
      lines := lines + [Str("medium " + T(params["medium"], floatText))];
    }
    done := done + OptionLine(params, "medium", "medium ", floatText);
    assert lines == done;
    if "isotopic_scaling" in params {
      lines := lines + [Str("isotopic scaling " + T(params["isotopic_scaling"], floatText))];
    }
    done := done + OptionLine(params, "isotopic_scaling", "isotopic scaling ", floatText);
    assert lines == done;
    if "vdwformat" in params && params["vdwformat"] != Str("default") {
      lines := lines + [Str(T(params["vdwformat"], floatText) + " waals")];
    }
  }

  /** The loop over the flags. */
  method FlagSection(params: Params) returns (lines: seq<Value>)
    ensures lines == FlagLinesUpTo(params, |FlagLabels|)
  {
    lines := [];
    for k := 0 to |FlagLabels|
      invariant lines == FlagLinesUpTo(params, k)
    {
      var flagValue := Get(params, FlagLabels[k].0, Null);
      if flagValue == Bool(true) || (flagValue.Str? && flagValue.s != []) {
        lines := lines + [if flagValue == Bool(true) then Str(FlagLabels[k].1) else flagValue];
      }
    }
  }

  /** The request-specific part of `format_request_file`. */
  method TypeLines(params: Params, reqtype: string, floatText: real -> string) returns (lines: seq<Value>)
    ensures lines == BodyLines(params, reqtype, floatText)
  {
    lines := [];
    if reqtype == "extractall" {
      if "stwvl" in params && "endwvl" in params {
        var line := T(params["stwvl"], floatText) + ", " + T(params["endwvl"], floatText);
        assert line + "" == line;
        lines := lines + [Str(line)];
      }
    } else if reqtype == "extractelement" {
      if "stwvl" in params && "endwvl" in params {
        lines := lines + [Str(T(params["stwvl"], floatText) + ", " + T(params["endwvl"], floatText) + ",")];
      }
      if "elmion" in params {
        lines := lines + [params["elmion"]];
      }
    } else if reqtype == "extractstellar" {
      lines := StellarLines(params, floatText);
    } else if reqtype == "showline" {
      lines := ShowSection(params, floatText);
    }
  }

  method StellarLines(params: Params, floatText: real -> string) returns (lines: seq<Value>)
    ensures lines == PairLine(params, "stwvl", "endwvl", true, floatText) + PairLine(params, "dlimit", "micturb", true, floatText)
                     + PairLine(params, "teff", "logg", true, floatText) + RawLine(params, "chemcomp")
  {
    lines := [];
    if "stwvl" in params && "endwvl" in params {
      lines := lines + [Str(T(params["stwvl"], floatText) + ", " + T(params["endwvl"], floatText) + ",")];
    }
    if "dlimit" in params && "micturb" in params {
      lines := lines + [Str(T(params["dlimit"], floatText) + ", " + T(params["micturb"], floatText) + ",")];
    }
    if "teff" in params && "logg" in params {
      lines := lines + [Str(T(params["teff"], floatText) + ", " + T(params["logg"], floatText) + ",")];
    }
    if "chemcomp" in params {
      lines := lines + [params["chemcomp"]];
    }
  }

  /** The loop over the five show-line sets. */
  method ShowSection(params: Params, floatText: real -> string) returns (lines: seq<Value>)
    ensures lines == ShowLinesUpTo(params, 5, floatText)
  {
    lines := [];
    for i := 0 to 5
      invariant lines == ShowLinesUpTo(params, i, floatText)
    {
      var wvl := Get(params, "wvl" + [DigitChar(i)], Null);
      var win := Get(params, "win" + [DigitChar(i)], Null);
      var el := Get(params, "el" + [DigitChar(i)], Str(""));
      if wvl != Null && win != Null {
        lines := lines + [Str(T(wvl, floatText) + ", " + T(win, floatText) + ",")];
        if Truthy(el) {
          lines := lines + [el];
        }
      }
    }
  }

  /** The request starts with the marker, the type's name and the
      configuration line, and ends with the closing marker. */
  lemma RequestFraming(params: Params, reqtype: string, floatText: real -> string)
    ensures var lines := RequestLines(params, reqtype, floatText);
            && |lines| >= 4
            && lines[0] == Str("begin request")
            && lines[1] == Str(TypeName(reqtype))
            && lines[2] == Str(T(Get(params, "pconf", Str("default")), floatText) + " configuration")
            && lines[|lines| - 1] == Str("end request")
  {
  }

  /** An unmapped type is written as it is. */
  lemma TypeNames(reqtype: string)
    ensures reqtype == "showline" ==> TypeName(reqtype) == "show line"
    ensures !IsExtraction(reqtype) && reqtype != "showline" ==> TypeName(reqtype) == reqtype
  {
  }

  /** "via ftp", and the format line, come only with an extraction; the
      format line needs the format. */
  lemma ExtractionLinesOnlyForExtractions(params: Params, reqtype: string, floatText: real -> string)
    ensures ExtractionLines(params, reqtype, floatText) != [] <==> IsExtraction(reqtype)
    ensures IsExtraction(reqtype) ==> ExtractionLines(params, reqtype, floatText)[0] == Str("via ftp")
    ensures |ExtractionLines(params, reqtype, floatText)| == 2 <==> IsExtraction(reqtype) && "format" in params
  {
  }

  /** A van der Waals line is written exactly when the format is given and
      is not "default". */
  lemma VdwLineWhenNotDefault(params: Params, floatText: real -> string)
    ensures VdwLines(params, floatText) != [] <==> "vdwformat" in params && params["vdwformat"] != Str("default")
  {
  }

  /** The flags add at most one line each; a flag adds one exactly when it
      is `True` or a non-empty string, and its line keeps the flags' order. */
  lemma {:induction false} FlagLinesCount(params: Params, n: nat)
    requires n <= |FlagLabels|
    ensures |FlagLinesUpTo(params, n)| <= n
    ensures FlagLinesUpTo(params, n) == [] <==>
              forall k :: 0 <= k < n ==> Get(params, FlagLabels[k].0, Null) != Bool(true)
                                         && !(Get(params, FlagLabels[k].0, Null).Str? && Get(params, FlagLabels[k].0, Null).s != [])
  {
    if n > 0 {
      FlagLinesCount(params, n - 1);
    }
  }

  /** What a flag's line is: its label for `True`, the string itself for a
      non-empty string. */
  lemma FlagLineContents(params: Params, k: nat)
    requires k < |FlagLabels|
    ensures Get(params, FlagLabels[k].0, Null) == Bool(true) ==> FlagLine(params, k) == [Str(FlagLabels[k].1)]
    ensures Get(params, FlagLabels[k].0, Null).Str? ==> FlagLine(params, k) == if Get(params, FlagLabels[k].0, Null).s == [] then [] else [Get(params, FlagLabels[k].0, Null)]
    ensures !Get(params, FlagLabels[k].0, Null).Str? && Get(params, FlagLabels[k].0, Null) != Bool(true) ==> FlagLine(params, k) == []
  {
  }

  /** A full extraction's range has no trailing comma; the ranges of the
      element and stellar extractions end with one. */
  lemma RangeCommas(params: Params, floatText: real -> string)
    requires "stwvl" in params && "endwvl" in params
    ensures BodyLines(params, "extractall", floatText) ==
              [Str(T(params["stwvl"], floatText) + ", " + T(params["endwvl"], floatText))]
    ensures var e := BodyLines(params, "extractelement", floatText);
            e != [] && e[0].Str? && EndsWith(e[0].s, ",")
    ensures var s := BodyLines(params, "extractstellar", floatText);
            s != [] && s[0].Str? && EndsWith(s[0].s, ",")
  {
    var line := T(params["stwvl"], floatText) + ", " + T(params["endwvl"], floatText);
    assert line + "" == line;
    assert (line + ",")[|line + ","| - 1..] == ",";
  }

  /** Every show-line set with both values gives a line ending in a comma,
      followed by its element when that is not empty; sets without both
      give nothing. */
  lemma {:induction false} ShowLinesCount(params: Params, n: nat, floatText: real -> string)
    requires n <= 5
    ensures |ShowLinesUpTo(params, n, floatText)| <= 2 * n
    ensures ShowLinesUpTo(params, n, floatText) == [] <==>
              forall i :: 0 <= i < n ==> Get(params, "wvl" + [DigitChar(i)], Null) == Null
                                         || Get(params, "win" + [DigitChar(i)], Null) == Null
  {
    if n > 0 {
      ShowLinesCount(params, n - 1, floatText);
    }
  }

  /** Show-line set `i` gives nothing unless both `wvl<i>` and `win<i>` are
      given; then it gives "wvl, win," and, exactly when the element is not
      empty, the element as a second line. */
  lemma ShowSetLinesMeaning(params: Params, i: nat, floatText: real -> string)
    requires i < 10
    ensures var wvl, win := Get(params, "wvl" + [DigitChar(i)], Null), Get(params, "win" + [DigitChar(i)], Null);
            (ShowSetLines(params, i, floatText) == [] <==> wvl == Null || win == Null)
            && (wvl != Null && win != Null ==>
                  ShowSetLines(params, i, floatText)[0] == Str(T(wvl, floatText) + ", " + T(win, floatText) + ","))
    ensures var el := Get(params, "el" + [DigitChar(i)], Str(""));
            |ShowSetLines(params, i, floatText)| <= 2
            && (|ShowSetLines(params, i, floatText)| == 2 <==>
                  ShowSetLines(params, i, floatText) != [] && Truthy(el))
            && (|ShowSetLines(params, i, floatText)| == 2 ==> ShowSetLines(params, i, floatText)[1] == el)
  {
  }

  lemma ShowSetLineEndsWithComma(params: Params, i: nat, floatText: real -> string)
    requires i < 10 && ShowSetLines(params, i, floatText) != []
    ensures ShowSetLines(params, i, floatText)[0].Str? && EndsWith(ShowSetLines(params, i, floatText)[0].s, ",")
  {
    var l := ShowSetLines(params, i, floatText)[0].s;
    assert l[|l| - 1..] == ",";
  }

  /** The joined text fails exactly when a line is a value that is not a
      string. */
  lemma JoinFailsOnNonText(lines: seq<Value>)
    ensures JoinRequest(lines).Failure? <==> exists k :: 0 <= k < |lines| && !lines[k].Str?
  {
  }

  /** Joining with newlines and adding one more is writing each line with
      its newline. */
  lemma {:induction false} JoinNewlines(ls: seq<string>)
    requires ls != []
    ensures Join(ls, "\n") + "\n" == UnlinesText(ls)
    decreases |ls|
  {
    if |ls| > 1 {
      JoinNewlines(ls[1..]);
    }
  }

  /** The text begins with "begin request" and a newline, ends with "end
      request" and a newline, and splitting it at newlines gives back the
      lines, as long as no line holds a newline of its own. */
  lemma RequestTextLines(params: Params, reqtype: string, floatText: real -> string)
    requires JoinRequest(RequestLines(params, reqtype, floatText)).Success?
    requires forall k :: 0 <= k < |RequestLines(params, reqtype, floatText)| ==>
               '\n' !in RequestLines(params, reqtype, floatText)[k].s
    ensures var text := JoinRequest(RequestLines(params, reqtype, floatText)).value;
            && StartsWith(text, "begin request\n") && EndsWith(text, "end request\n")
            && SplitOn(text, '\n') == Texts(RequestLines(params, reqtype, floatText)) + [""]
  {
    RequestFraming(params, reqtype, floatText);
    TextFraming(RequestLines(params, reqtype, floatText));
  }

  /** The same for any lines that open and close with the markers. */
  lemma TextFraming(lines: seq<Value>)
    requires |lines| >= 2 && AllText(lines)
    requires lines[0] == Str("begin request") && lines[|lines| - 1] == Str("end request")
    requires forall k :: 0 <= k < |lines| ==> '\n' !in lines[k].s
    ensures var text := JoinRequest(lines).value;
            && StartsWith(text, "begin request\n") && EndsWith(text, "end request\n")
            && SplitOn(text, '\n') == Texts(lines) + [""]
  {
    var ts := Texts(lines);
    JoinNewlines(ts);
    var text := UnlinesText(ts);
    assert JoinRequest(lines).value == text;
    SplitUnlines(ts);
    assert text == "begin request" + "\n" + UnlinesText(ts[1..]);
    assert text[..14] == "begin request\n";
    UnlinesLast(ts);
  }

  /** The text of lines written one by one ends with the last line and its newline. */
  lemma {:induction false} UnlinesLast(ls: seq<string>)
    requires ls != []
    ensures EndsWith(UnlinesText(ls), ls[|ls| - 1] + "\n")
    decreases |ls|
  {
    if |ls| > 1 {
      UnlinesLast(ls[1..]);
      var rest := UnlinesText(ls[1..]);
      assert UnlinesText(ls) == ls[0] + "\n" + rest;
    } else {
      assert UnlinesText(ls) == ls[0] + "\n" + UnlinesText([]);
    }
  }

  /** A byte of a digest. */
  newtype byte = x: int | 0 <= x < 256

  /** The number bytes denote, most significant first. */
  function BigEndian(bs: seq<byte>): nat
  {
    if bs == [] then 0 else BigEndian(bs[..|bs| - 1]) * 256 + bs[|bs| - 1] as nat
  }

  /** `uuid_to_6digit`: the first four bytes of the SHA-256 digest of the
      ID's text, read big-endian, modulo a million. `digest` stands for
      SHA-256 of the UTF-8 encoding. */
  function UuidTo6Digit(uuidText: string, digest: string -> seq<byte>): (r: nat)
    ensures r <= 999999
  {
    var d := digest(uuidText);
    var first := if |d| <= 4 then d else d[..4];
    BigEndian(first) % 1000000
  }

  /** The same ID gives the same number, and it always names a job
      directory that the cleanup of old results looks into. */
  lemma BackendIdNamesJobDir(uuidText: string, digest: string -> seq<byte>)
    ensures CleanupOldResults.IsJobDirName(CleanupOldResults.JobDirName(UuidTo6Digit(uuidText, digest)))
  {
    CleanupOldResults.JobDirsQualify(UuidTo6Digit(uuidText, digest));
  }
}
