/** The user-preferences file of vald/userprefs.py: five known keys with
    their defaults, a reader that lets the lines of a file override them, and
    a writer that emits one "key<TAB>value" line per key in a fixed order. A
    file is given to the reader as its lines; a missing file is `None`. The
    dictionary the reader returns always holds exactly the five keys, so it is
    a record here; the writer accepts any dictionary. */
module UserPrefs {
  import opened Wrappers
  import opened Text

  /** The known keys, in the order the writer emits them. */
  datatype Key = EnergyUnit | Medium | WaveUnit | VdwFormat | IsotopicScaling

  const KeyOrder: seq<Key> := [EnergyUnit, Medium, WaveUnit, VdwFormat, IsotopicScaling]

  function KeyName(k: Key): string
  {
    match k
    case EnergyUnit => "energyunit"
    case Medium => "medium"
    case WaveUnit => "waveunit"
    case VdwFormat => "vdwformat"
    case IsotopicScaling => "isotopic_scaling"
  }

  function DefaultValue(k: Key): string
  {
    match k
    case EnergyUnit => "eV"
    case Medium => "air"
    case WaveUnit => "angstrom"
    case VdwFormat => "default"
    case IsotopicScaling => "on"
  }

  /** The known key a word names, if any. */
  function KeyOf(w: string): (r: Option<Key>)
    ensures r.Some? ==> KeyName(r.value) == w
  {
    if w == "energyunit" then Some(EnergyUnit)
    else if w == "medium" then Some(Medium)
    else if w == "waveunit" then Some(WaveUnit)
    else if w == "vdwformat" then Some(VdwFormat)
    else if w == "isotopic_scaling" then Some(IsotopicScaling)
    else None
  }

  /** The preferences the reader returns: one value per known key. */
  datatype Prefs = Prefs(energyUnit: string, medium: string, waveUnit: string, vdwFormat: string,
                         isotopicScaling: string)
  {
    function Get(k: Key): string
    {
      match k
      case EnergyUnit => energyUnit
      case Medium => medium
      case WaveUnit => waveUnit
      case VdwFormat => vdwFormat
      case IsotopicScaling => isotopicScaling
    }

    /** The preferences with one key changed and the others kept. */
    function Set(k: Key, v: string): (r: Prefs)
      ensures r.Get(k) == v && forall k' :: k' != k ==> r.Get(k') == Get(k')
    {
      match k
      case EnergyUnit => this.(energyUnit := v)
      case Medium => this.(medium := v)
      case WaveUnit => this.(waveUnit := v)
      case VdwFormat => this.(vdwFormat := v)
      case IsotopicScaling => this.(isotopicScaling := v)
    }
  }

  /** `DEFAULT_PREFERENCES`. */
  const DefaultPreferences: Prefs := Prefs("eV", "air", "angstrom", "default", "on")

  /** The effect of one line: a stripped line that is neither blank nor a
      `#` comment and splits into a key and a value sets a known key to the
      stripped value; every other line is ignored. */
  function ApplyLine(p: Prefs, line: string): Prefs
  {
    var t := Strip(line);
    if t == [] || t[0] == '#' then p
    else
      var parts := SplitWsOnce(t);
      if |parts| == 2 && KeyOf(parts[0]).Some? then p.Set(KeyOf(parts[0]).value, Strip(parts[1])) else p
  }

  /** The preferences after the given lines, starting from `base`. */
  function ApplyLines(base: Prefs, lines: seq<string>): Prefs
  {
    if lines == [] then base else ApplyLine(ApplyLines(base, lines[..|lines| - 1]), lines[|lines| - 1])
  }

  /** What `read_userprefs_file` returns for a file. */
  function ReadSpec(file: Option<seq<string>>): Prefs
  {
    match file
    case None => DefaultPreferences
    case Some(lines) => ApplyLines(DefaultPreferences, lines)
  }

  /** `read_userprefs_file`: a copy of the defaults, updated line by line. A
      missing file gives exactly the defaults. */
  method ReadUserPrefsFile(file: Option<seq<string>>) returns (prefs: Prefs)
    ensures prefs == ReadSpec(file)
    ensures file.None? ==> forall k: Key :: prefs.Get(k) == DefaultValue(k)
  {
    if file.None? {
      return DefaultPreferences;
    }
    var lines := file.value;
    prefs := DefaultPreferences;
    var i := 0;
    while i < |lines|
      invariant 0 <= i <= |lines|
      invariant prefs == ApplyLines(DefaultPreferences, lines[..i])
    {
      assert lines[..i + 1][..i] == lines[..i];
      prefs := ApplyLine(prefs, lines[i]);
      i := i + 1;
    }
    assert lines[..|lines|] == lines;
  }

  /** The value the writer uses for a key: the given one, or the default. */
  function ValueFor(given: map<string, string>, k: Key): string
  {
    if KeyName(k) in given then given[KeyName(k)] else DefaultValue(k)
  }

  function PrefLine(given: map<string, string>, k: Key): string
  {
    KeyName(k) + "\t" + ValueFor(given, k)
  }

  /** The five lines of `write_userprefs_file`, in key order. */
  function WrittenLines(given: map<string, string>): (r: seq<string>)
    ensures |r| == |KeyOrder| && forall j :: 0 <= j < |KeyOrder| ==> r[j] == PrefLine(given, KeyOrder[j])
  {
    seq(|KeyOrder|, j requires 0 <= j < |KeyOrder| => PrefLine(given, KeyOrder[j]))
  }

  /** The text `write_userprefs_file` writes. */
  function WriteText(given: map<string, string>): string
  {
    UnlinesText(WrittenLines(given))
  }

  /** A value that reads back as itself: non-empty, without line breaks,
      and without surrounding whitespace. */
  predicate Storable(v: string)
  {
    v != [] && '\n' !in v && !IsSpace(v[0]) && !IsSpace(v[|v| - 1])
  }

  predicate AllStorable(given: map<string, string>)
  {
    forall k: Key :: Storable(ValueFor(given, k))
  }

  /** A key's name is a word that is not a comment, and names that key. */
  lemma KeyNameIsWord(k: Key)
    ensures IsWord(KeyName(k)) && KeyName(k)[0] != '#' && '\n' !in KeyName(k)
    ensures KeyOf(KeyName(k)) == Some(k)
  {
    var w := KeyName(k);
    forall i | 0 <= i < |w| ensures IsAlpha(w[i]) || w[i] == '_' {
    }
  }

  /** The written text is the five lines, each ended by a newline. */
  lemma WrittenTextLines(given: map<string, string>)
    requires AllStorable(given)
    ensures SplitOn(WriteText(given), '\n') == WrittenLines(given) + [""]
  {
    var l := WrittenLines(given);
    forall j | 0 <= j < |l| ensures '\n' !in l[j] {
      KeyNameIsWord(KeyOrder[j]);
      assert l[j] == KeyName(KeyOrder[j]) + "\t" + ValueFor(given, KeyOrder[j]);
    }
    SplitUnlines(l);
  }

  /** A line "key<TAB>value" sets the key to the value. */
  lemma {:induction false} ApplyWrittenLine(q: Prefs, k: Key, v: string)
    requires Storable(v)
    ensures ApplyLine(q, KeyName(k) + "\t" + v) == q.Set(k, v)
  {
    KeyNameIsWord(k);
    var w := KeyName(k);
    var line := w + "\t" + v;
    assert line[0] == w[0] && line[|line| - 1] == v[|v| - 1];
    StripIdentity(line);
    assert IsSpace('\t');
    assert line == w + ['\t'] + v;
    SplitWsOnceOfPair(w, '\t', v);
    StripIdentity(v);
  }

  /** The defaults after the first `j` keys were given their written values. */
  function Updated(given: map<string, string>, j: nat): Prefs
    requires j <= |KeyOrder|
  {
    if j == 0 then DefaultPreferences
    else Updated(given, j - 1).Set(KeyOrder[j - 1], ValueFor(given, KeyOrder[j - 1]))
  }

  lemma {:induction false} ReadWrittenPrefix(given: map<string, string>, j: nat)
    requires AllStorable(given) && j <= |KeyOrder|
    ensures ApplyLines(DefaultPreferences, WrittenLines(given)[..j]) == Updated(given, j)
  {
    if j > 0 {
      var l := WrittenLines(given);
      ReadWrittenPrefix(given, j - 1);
      PrefixSnoc(l, j);
      WrittenStep(Updated(given, j - 1), l[..j - 1], KeyOrder[j - 1], ValueFor(given, KeyOrder[j - 1]));
    }
  }

  /** One more written line sets one more key. */
  lemma WrittenStep(q: Prefs, ls: seq<string>, k: Key, v: string)
    requires Storable(v) && ApplyLines(DefaultPreferences, ls) == q
    ensures ApplyLines(DefaultPreferences, ls + [KeyName(k) + "\t" + v]) == q.Set(k, v)
  {
    assert (ls + [KeyName(k) + "\t" + v])[..|ls|] == ls;
    ApplyWrittenLine(q, k, v);
  }

  /** The position of a key in the written order. */
  function KeyIndex(k: Key): (r: nat)
    ensures r < |KeyOrder| && KeyOrder[r] == k
  {
    match k
    case EnergyUnit => 0
    case Medium => 1
    case WaveUnit => 2
    case VdwFormat => 3
    case IsotopicScaling => 4
  }

  /** After `j` keys, the keys before position `j` hold their written value
      and the others their default. */
  lemma {:induction false} UpdatedGet(given: map<string, string>, j: nat, k: Key)
    requires j <= |KeyOrder|
    ensures Updated(given, j).Get(k) == if KeyIndex(k) < j then ValueFor(given, k) else DefaultValue(k)
  {
    if j > 0 {
      UpdatedGet(given, j - 1, k);
      var kj := KeyOrder[j - 1];
      assert Updated(given, j) == Updated(given, j - 1).Set(kj, ValueFor(given, kj));
      assert kj == k <==> KeyIndex(k) == j - 1;
      if kj != k {
        assert Updated(given, j).Get(k) == Updated(given, j - 1).Get(k);
      }
    }
  }

  /** Reading a written file replays the five written lines; the empty
      piece after the final newline changes nothing. */
  lemma {:induction false} ReadWrittenIsUpdated(given: map<string, string>)
    requires AllStorable(given)
    ensures ReadSpec(Some(SplitOn(WriteText(given), '\n'))) == Updated(given, 5)
  {
    WrittenTextLines(given);
    BlankLastLine(DefaultPreferences, WrittenLines(given));
    ReadWrittenLines(given);
  }

  /** Reading the five written lines applies the five updates. */
  lemma ReadWrittenLines(given: map<string, string>)
    requires AllStorable(given)
    ensures ApplyLines(DefaultPreferences, WrittenLines(given)) == Updated(given, 5)
  {
    ReadWrittenPrefix(given, 5);
    assert WrittenLines(given)[..5] == WrittenLines(given);
  }

  /** A final empty line leaves the preferences as they were. */
  lemma BlankLastLine(base: Prefs, l: seq<string>)
    ensures ApplyLines(base, l + [""]) == ApplyLines(base, l)
  {
    assert (l + [""])[..|l|] == l;
    assert Strip("") == [];
  }

  /** Reading back a written file gives every known key the value written for
      it, as long as each value reads back as itself. */
  lemma {:induction false} ReadWrittenFile(given: map<string, string>)
    requires AllStorable(given)
    ensures forall k: Key :: ReadSpec(Some(SplitOn(WriteText(given), '\n'))).Get(k) == ValueFor(given, k)
  {
    ReadWrittenIsUpdated(given);
    forall k: Key ensures Updated(given, 5).Get(k) == ValueFor(given, k) {
      UpdatedGet(given, 5, k);
    }
  }

  /** Blank lines, comments, lines with only a key and lines with an unknown
      key leave the preferences as they were. */
  lemma IgnoredLines(p: Prefs, line: string)
    requires Strip(line) == [] || Strip(line)[0] == '#' || |SplitWsOnce(Strip(line))| < 2
             || KeyOf(SplitWsOnce(Strip(line))[0]).None?
    ensures ApplyLine(p, line) == p
  {
  }

  /** Only the five keys can change: a line that changes something names one
      of them and sets it to the rest of the line, stripped. */
  lemma {:induction false} OnlyKnownKeysChange(p: Prefs, line: string)
    requires ApplyLine(p, line) != p
    ensures Strip(line) != [] && |SplitWsOnce(Strip(line))| == 2
    ensures KeyOf(SplitWsOnce(Strip(line))[0]).Some?
    ensures ApplyLine(p, line) == p.Set(KeyOf(SplitWsOnce(Strip(line))[0]).value, Strip(SplitWsOnce(Strip(line))[1]))
  {
  }
}
