/** backend/parserequest.c: the pieces of the request parser that decide
    what is extracted, namely the removal of shell metacharacters, the
    keyword lines that set the request's global flags, the element-symbol
    table and the choice of the nearest model atmosphere. The C strings
    are `array<char>` buffers ended by a NUL (module `CString`). */
module ParseRequest {
  import opened Wrappers
  import opened Text
  import opened CString

  // ---------------------------------------------------------------------------
  // RemoveMeta
  // ---------------------------------------------------------------------------

  /** The characters `RemoveMeta` replaces by a blank, in the order of its
      loops. */
  const MetaChars: seq<char> := [';', '&', '|', '>', '<', '"', '\n', '\r']

  /** The buffer with every `c` among its first `p` characters made a blank. */
  function ReplaceBefore(s: seq<char>, c: char, p: nat): (r: seq<char>)
    ensures |r| == |s|
  {
    seq(|s|, j requires 0 <= j < |s| => if j < p && s[j] == c then ' ' else s[j])
  }

  /** The buffer with every `c` of its text made a blank. */
  function ReplaceChar(s: seq<char>, c: char): seq<char>
  {
    ReplaceBefore(s, c, StrLen(s))
  }

  /** The buffer with every character of its text that is in `cs` made a
      blank. */
  function ScrubbedBy(s: seq<char>, cs: seq<char>): (r: seq<char>)
    ensures |r| == |s|
  {
    seq(|s|, j requires 0 <= j < |s| => if j < StrLen(s) && s[j] in cs then ' ' else s[j])
  }

  /** What `RemoveMeta` leaves in the buffer. */
  function Scrubbed(s: seq<char>): seq<char> { ScrubbedBy(s, MetaChars) }

  /** Blanking characters that are not NUL keeps the text's length. */
  lemma ScrubbedByLength(s: seq<char>, cs: seq<char>)
    requires NUL in s && NUL !in cs
    ensures StrLen(ScrubbedBy(s, cs)) == StrLen(s)
  {
    StrLenAt(ScrubbedBy(s, cs), StrLen(s));
  }

  /** One more of `RemoveMeta`'s loops blanks one more character. */
  lemma ScrubMore(s: seq<char>, cs: seq<char>, c: char)
    requires NUL in s && NUL !in cs && ' ' !in cs && c != NUL && c != ' '
    ensures NUL in ScrubbedBy(s, cs)
    ensures ReplaceChar(ScrubbedBy(s, cs), c) == ScrubbedBy(s, cs + [c])
  {
    ScrubbedByLength(s, cs);
  }

  /** One replacement of the loop in `ReplaceAll`: the first `c` of the text
      lies at or after `p`, and blanking it extends the replaced part to
      just past it. */
  lemma ReplaceStep(s0: seq<char>, c: char, p: nat, i: nat)
    requires NUL in s0 && c != NUL && c != ' ' && p <= i < StrLen(s0)
    requires s0[i] == c && c !in ReplaceBefore(s0, c, p)[p..i]
    ensures ReplaceBefore(s0, c, p)[i := ' '] == ReplaceBefore(s0, c, i + 1)
    ensures StrLen(ReplaceBefore(s0, c, i + 1)) == StrLen(s0)
  {
    var r := ReplaceBefore(s0, c, i + 1);
    forall j | p <= j < i
      ensures s0[j] != c
    {
      assert ReplaceBefore(s0, c, p)[p..i][j - p] == s0[j];
    }
    StrLenAt(r, StrLen(s0));
  }

  /** The end of the loop in `ReplaceAll`: with no `c` left in the text,
      every `c` has been blanked. */
  lemma ReplaceDone(s0: seq<char>, c: char, p: nat)
    requires NUL in s0 && c != ' ' && p <= StrLen(s0)
    requires c !in CStr(ReplaceBefore(s0, c, p)) && StrLen(ReplaceBefore(s0, c, p)) == StrLen(s0)
    ensures ReplaceBefore(s0, c, p) == ReplaceChar(s0, c)
  {
    var r := ReplaceBefore(s0, c, p);
    forall j | p <= j < StrLen(s0)
      ensures s0[j] != c
    {
      assert CStr(r)[j] == s0[j];
    }
  }

  /** One of `RemoveMeta`'s loops: while `strchr` finds `c` in the text, the
      character it points at becomes a blank. */
  method ReplaceAll(s: array<char>, c: char)
    requires NUL in s[..] && c != NUL && c != ' '
    modifies s
    ensures s[..] == ReplaceChar(old(s[..]), c)
  {
    ghost var s0 := s[..];
    ghost var p := 0;
    while IndexOf(CStr(s[..]), c) < StrLen(s[..])
      invariant p <= StrLen(s0)
      invariant s[..] == ReplaceBefore(s0, c, p)
      invariant StrLen(s[..]) == StrLen(s0)
      invariant c !in s[..p]
      decreases StrLen(s0) - p
    {
      var i := IndexOf(CStr(s[..]), c);
      assert CStr(s[..])[i] == s[i] == c;
      assert p <= i;
      assert s[..][p..i] == CStr(s[..])[p..i];
      ReplaceStep(s0, c, p, i);
      s[i] := ' ';
      p := i + 1;
    }
    ReplaceDone(s0, c, p);
  }

  /** `RemoveMeta`: blanks every shell metacharacter, newline and carriage
      return of the text, in place. */
  method RemoveMeta(s: array<char>)
    requires NUL in s[..]
    modifies s
    ensures s[..] == Scrubbed(old(s[..]))
  {
    ghost var s0 := s[..];
    assert s[..] == ScrubbedBy(s0, []);
    ScrubOne(s, s0, [], ';');
    ScrubOne(s, s0, [';'], '&');
    ScrubOne(s, s0, [';', '&'], '|');
    ScrubOne(s, s0, [';', '&', '|'], '>');
    ScrubOne(s, s0, [';', '&', '|', '>'], '<');
    ScrubOne(s, s0, [';', '&', '|', '>', '<'], '"');
    ScrubOne(s, s0, [';', '&', '|', '>', '<', '"'], '\n');
    ScrubOne(s, s0, [';', '&', '|', '>', '<', '"', '\n'], '\r');
    assert [';', '&', '|', '>', '<', '"', '\n'] + ['\r'] == MetaChars;
  }

  /** One `ReplaceAll` call of `RemoveMeta`: after blanking the characters
      `cs`, blanking `c` as well. */
  method ScrubOne(s: array<char>, ghost s0: seq<char>, ghost cs: seq<char>, c: char)
    requires NUL in s0 && NUL !in cs && ' ' !in cs && c != NUL && c != ' '
    requires s[..] == ScrubbedBy(s0, cs)
    modifies s
    ensures s[..] == ScrubbedBy(s0, cs + [c])
  {
    ScrubMore(s0, cs, c);
    ReplaceAll(s, c);
  }

  /** The scrubbed text has the same length and no metacharacter; a
      character changes only if it is a metacharacter of the text, and then
      becomes a blank; and scrubbing again changes nothing. */
  lemma ScrubbedProperties(s: seq<char>)
    requires NUL in s
    ensures var r := Scrubbed(s);
            && StrLen(r) == StrLen(s)
            && (forall i :: 0 <= i < StrLen(r) ==> r[i] !in MetaChars)
            && (forall i :: 0 <= i < |s| && r[i] != s[i] ==> i < StrLen(s) && s[i] in MetaChars && r[i] == ' ')
            && Scrubbed(r) == r
  {
    ScrubbedByLength(s, MetaChars);
  }

  // ---------------------------------------------------------------------------
  // SetKeyword
  // ---------------------------------------------------------------------------

  /** The global flags of a request, one field per C global. */
  datatype Flags = Flags(personalConfiguration: int, longFormat: int, haveRadiativeDamping: int, haveStarkDamping: int, haveVanderWaalsDamping: int, haveLande: int, haveTermDesignation: int, extendedWaals: int, zeemanPattern: int, starkBroadening: int, ftpRetrieval: int, energyInInvCm: int, wavelengthInVac: int, wavelengthUnits: int, isotopicScalingOfGf: int, hfsSplitting: int)

  /** The flags' initial values. */
  const DefaultFlags := Flags(0, 0, 0, 0, 0, 0, 0, 0, 0, 0, 0, 0, 0, 0, 1, 0)

  /** The flags as a sequence, in the order of their declarations. */
  function FlagList(f: Flags): (r: seq<int>)
    ensures |r| == 16
  {
    [f.personalConfiguration, f.longFormat, f.haveRadiativeDamping, f.haveStarkDamping, f.haveVanderWaalsDamping, f.haveLande, f.haveTermDesignation, f.extendedWaals, f.zeemanPattern, f.starkBroadening, f.ftpRetrieval, f.energyInInvCm, f.wavelengthInVac, f.wavelengthUnits, f.isotopicScalingOfGf, f.hfsSplitting]
  }

  /** What became of the personal configuration's file when
      PERSONALCONFIGURATION is read: it was found in the personal
      configuration directory, it was created there as a copy of the
      standard configuration, or a path or a file could not be opened. The
      directory and the files are outside the model, so this is a parameter
      of `SetKeyword`. */
  datatype ConfigFile = Found | Created | Unavailable

  /** The keywords `SetKeyword` recognises, in the order it tests them. */
  datatype Keyword =
    LongFormat | ShortFormat | PersonalConfiguration | DefaultConfiguration | HaveRad | HaveStark | HaveWaals | HaveLande | HaveTerm | DefaultWaals | ExtendedWaals | ZeemanPattern | StarkBroadening | ViaFtp | EnergyUnitEv | EnergyUnit1Cm | MediumAir | MediumVacuum | WaveUnitAngstrom | WaveUnitNm | WaveUnit1Cm | IsotopicScalingOn | IsotopicScalingOff | HfsSplitting | NoHfsSplitting

  /** The keyword as the code spells it. */
  function Spelling(k: Keyword): string
  {
    match k
    case LongFormat => "LONGFORMAT"
    case ShortFormat => "SHORTFORMAT"
    case PersonalConfiguration => "PERSONALCONFIGURATION"
    case DefaultConfiguration => "DEFAULTCONFIGURATION"
    case HaveRad => "HAVERAD"
    case HaveStark => "HAVESTARK"
    case HaveWaals => "HAVEWAALS"
    case HaveLande => "HAVELANDE"
    case HaveTerm => "HAVETERM"
    case DefaultWaals => "DEFAULTWAALS"
    case ExtendedWaals => "EXTENDEDWAALS"
    case ZeemanPattern => "ZEEMANPATTERN"
    case StarkBroadening => "STARKBROADENING"
    case ViaFtp => "VIAFTP"
    case EnergyUnitEv => "ENERGYUNITEV"
    case EnergyUnit1Cm => "ENERGYUNIT1CM"
    case MediumAir => "MEDIUMAIR"
    case MediumVacuum => "MEDIUMVACUUM"
    case WaveUnitAngstrom => "WAVEUNITANGSTROM"
    case WaveUnitNm => "WAVEUNITNM"
    case WaveUnit1Cm => "WAVEUNIT1CM"
    case IsotopicScalingOn => "ISOTOPICSCALINGON"
    case IsotopicScalingOff => "ISOTOPICSCALINGOFF"
    case HfsSplitting => "HFSSPLITTING"
    case NoHfsSplitting => "NOHFSSPLITTING"
  }

  /** How many of its characters are compared. */
  function PrefixLength(k: Keyword): (n: nat)
    ensures n <= |Spelling(k)|
  {
    match k
    case LongFormat => 4
    case ShortFormat => 5
    case PersonalConfiguration => 6
    case DefaultConfiguration => 10
    case HaveRad => 7
    case HaveStark => 9
    case HaveWaals => 9
    case HaveLande => 9
    case HaveTerm => 8
    case DefaultWaals => 8
    case ExtendedWaals => 9
    case ZeemanPattern => 6
    case StarkBroadening => 5
    case ViaFtp => 6
    case EnergyUnitEv => 11
    case EnergyUnit1Cm => 12
    case MediumAir => 7
    case MediumVacuum => 7
    case WaveUnitAngstrom => 9
    case WaveUnitNm => 9
    case WaveUnit1Cm => 10
    case IsotopicScalingOn => 17
    case IsotopicScalingOff => 18
    case HfsSplitting => 8
    case NoHfsSplitting => 10
  }

  /** Which flag the keyword sets (its index in `FlagList`). */
  function FlagIndex(k: Keyword): (i: nat)
    ensures i < 16
  {
    match k
    case LongFormat => 1
    case ShortFormat => 1
    case PersonalConfiguration => 0
    case DefaultConfiguration => 0
    case HaveRad => 2
    case HaveStark => 3
    case HaveWaals => 4
    case HaveLande => 5
    case HaveTerm => 6
    case DefaultWaals => 7
    case ExtendedWaals => 7
    case ZeemanPattern => 8
    case StarkBroadening => 9
    case ViaFtp => 10
    case EnergyUnitEv => 11
    case EnergyUnit1Cm => 11
    case MediumAir => 12
    case MediumVacuum => 12
    case WaveUnitAngstrom => 13
    case WaveUnitNm => 13
    case WaveUnit1Cm => 13
    case IsotopicScalingOn => 14
    case IsotopicScalingOff => 14
    case HfsSplitting => 15
    case NoHfsSplitting => 15
  }

  /** The value the keyword gives its flag: the personal configuration is
      on unless its file is unavailable. */
  function FlagValue(k: Keyword, personalConfig: ConfigFile): int
  {
    match k
    case LongFormat => 1
    case ShortFormat => 0
    case PersonalConfiguration => if personalConfig == Unavailable then 0 else 1
    case DefaultConfiguration => 0
    case HaveRad => 1
    case HaveStark => 1
    case HaveWaals => 1
    case HaveLande => 1
    case HaveTerm => 1
    case DefaultWaals => 0
    case ExtendedWaals => 1
    case ZeemanPattern => 1
    case StarkBroadening => 1
    case ViaFtp => 1
    case EnergyUnitEv => 0
    case EnergyUnit1Cm => 1
    case MediumAir => 0
    case MediumVacuum => 1
    case WaveUnitAngstrom => 0
    case WaveUnitNm => 1
    case WaveUnit1Cm => 2
    case IsotopicScalingOn => 1
    case IsotopicScalingOff => 0
    case HfsSplitting => 1
    case NoHfsSplitting => 0
  }

  /** `strncmp(s, key, n) == 0` for a key of at least `n` characters
      without a NUL: the text has `n` characters and they are the key's. */
  predicate KeyHit(s: seq<char>, key: string, n: nat)
  {
    n <= |key| && n <= StrLen(s) && s[..n] == key[..n]
  }

  /** The test for keyword `k`. */
  predicate Hits(s: seq<char>, k: Keyword)
  {
    KeyHit(s, Spelling(k), PrefixLength(k))
  }

  /** The number of keywords. */
  const KeywordCount := 25

  /** The `j`-th keyword in the order `SetKeyword` tests them. */
  function KeywordAt(j: nat): Keyword
    requires j < KeywordCount
  {
    if j == 0 then LongFormat
    else if j == 1 then ShortFormat
    else if j == 2 then PersonalConfiguration
    else if j == 3 then DefaultConfiguration
    else if j == 4 then HaveRad
    else if j == 5 then HaveStark
    else if j == 6 then HaveWaals
    else if j == 7 then HaveLande
    else if j == 8 then HaveTerm
    else if j == 9 then DefaultWaals
    else if j == 10 then ExtendedWaals
    else if j == 11 then ZeemanPattern
    else if j == 12 then StarkBroadening
    else if j == 13 then ViaFtp
    else if j == 14 then EnergyUnitEv
    else if j == 15 then EnergyUnit1Cm
    else if j == 16 then MediumAir
    else if j == 17 then MediumVacuum
    else if j == 18 then WaveUnitAngstrom
    else if j == 19 then WaveUnitNm
    else if j == 20 then WaveUnit1Cm
    else if j == 21 then IsotopicScalingOn
    else if j == 22 then IsotopicScalingOff
    else if j == 23 then HfsSplitting
    else NoHfsSplitting
  }

  /** The first keyword from the `j`-th on whose test passes. */
  function FirstHit(s: seq<char>, j: nat): Option<Keyword>
    decreases KeywordCount - j
  {
    if j >= KeywordCount then None
    else if Hits(s, KeywordAt(j)) then Some(KeywordAt(j))
    else FirstHit(s, j + 1)
  }

  /** A position where a keyword's prefix differs from the prefix of every
      other keyword that starts with the same two characters. */
  function Mark(k: Keyword): (d: nat)
    ensures d < PrefixLength(k)
  {
    match k
    case LongFormat => 0
    case ShortFormat => 0
    case PersonalConfiguration => 0
    case DefaultConfiguration => 7
    case HaveRad => 4
    case HaveStark => 4
    case HaveWaals => 4
    case HaveLande => 4
    case HaveTerm => 4
    case DefaultWaals => 7
    case ExtendedWaals => 0
    case ZeemanPattern => 0
    case StarkBroadening => 0
    case ViaFtp => 0
    case EnergyUnitEv => 10
    case EnergyUnit1Cm => 10
    case MediumAir => 6
    case MediumVacuum => 6
    case WaveUnitAngstrom => 8
    case WaveUnitNm => 8
    case WaveUnit1Cm => 8
    case IsotopicScalingOn => 16
    case IsotopicScalingOff => 16
    case HfsSplitting => 0
    case NoHfsSplitting => 0
  }

  /** The characters of a keyword's prefix at positions 0, 1 and `Mark`. */
  function Signature(k: Keyword): (char, char, char)
  {
    match k
    case LongFormat => ('L', 'O', 'L')
    case ShortFormat => ('S', 'H', 'S')
    case PersonalConfiguration => ('P', 'E', 'P')
    case DefaultConfiguration => ('D', 'E', 'C')
    case HaveRad => ('H', 'A', 'R')
    case HaveStark => ('H', 'A', 'S')
    case HaveWaals => ('H', 'A', 'W')
    case HaveLande => ('H', 'A', 'L')
    case HaveTerm => ('H', 'A', 'T')
    case DefaultWaals => ('D', 'E', 'W')
    case ExtendedWaals => ('E', 'X', 'E')
    case ZeemanPattern => ('Z', 'E', 'Z')
    case StarkBroadening => ('S', 'T', 'S')
    case ViaFtp => ('V', 'I', 'V')
    case EnergyUnitEv => ('E', 'N', 'E')
    case EnergyUnit1Cm => ('E', 'N', '1')
    case MediumAir => ('M', 'E', 'A')
    case MediumVacuum => ('M', 'E', 'V')
    case WaveUnitAngstrom => ('W', 'A', 'A')
    case WaveUnitNm => ('W', 'A', 'N')
    case WaveUnit1Cm => ('W', 'A', '1')
    case IsotopicScalingOn => ('I', 'S', 'N')
    case IsotopicScalingOff => ('I', 'S', 'F')
    case HfsSplitting => ('H', 'F', 'H')
    case NoHfsSplitting => ('N', 'O', 'N')
  }

  /** The signature is read off the spelling. */
  lemma SignatureSpelled(k: Keyword)
    ensures Signature(k) == (Spelling(k)[0], Spelling(k)[1], Spelling(k)[Mark(k)])
  {
  }

  /** Keywords whose prefixes start alike are told apart at the same
      position, where their signatures differ. */
  lemma SignatureDistinct(k1: Keyword, k2: Keyword)
    requires Signature(k1).0 == Signature(k2).0 && Signature(k1).1 == Signature(k2).1
    ensures Mark(k1) == Mark(k2)
    ensures Signature(k1) == Signature(k2) ==> k1 == k2
  {
    MarkOfSignature(k1);
    MarkOfSignature(k2);
    SignatureDecodes(k1);
    SignatureDecodes(k2);
  }

  /** The position a keyword's test looks at, told by its first two
      characters. */
  function MarkOf(c0: char, c1: char): nat
  {
    match (c0, c1)
    case ('D', 'E') => 7
    case ('H', 'A') => 4
    case ('E', 'N') => 10
    case ('M', 'E') => 6
    case ('W', 'A') => 8
    case ('I', 'S') => 16
    case _ => 0
  }

  lemma MarkOfSignature(k: Keyword)
    ensures MarkOf(Signature(k).0, Signature(k).1) == Mark(k)
  {
  }

  /** The keyword with a given signature. */
  function KeywordOf(sig: (char, char, char)): Option<Keyword>
  {
    match sig
    case ('L', 'O', 'L') => Some(LongFormat)
    case ('S', 'H', 'S') => Some(ShortFormat)
    case ('P', 'E', 'P') => Some(PersonalConfiguration)
    case ('D', 'E', 'C') => Some(DefaultConfiguration)
    case ('H', 'A', 'R') => Some(HaveRad)
    case ('H', 'A', 'S') => Some(HaveStark)
    case ('H', 'A', 'W') => Some(HaveWaals)
    case ('H', 'A', 'L') => Some(HaveLande)
    case ('H', 'A', 'T') => Some(HaveTerm)
    case ('D', 'E', 'W') => Some(DefaultWaals)
    case ('E', 'X', 'E') => Some(ExtendedWaals)
    case ('Z', 'E', 'Z') => Some(ZeemanPattern)
    case ('S', 'T', 'S') => Some(StarkBroadening)
    case ('V', 'I', 'V') => Some(ViaFtp)
    case ('E', 'N', 'E') => Some(EnergyUnitEv)
    case ('E', 'N', '1') => Some(EnergyUnit1Cm)
    case ('M', 'E', 'A') => Some(MediumAir)
    case ('M', 'E', 'V') => Some(MediumVacuum)
    case ('W', 'A', 'A') => Some(WaveUnitAngstrom)
    case ('W', 'A', 'N') => Some(WaveUnitNm)
    case ('W', 'A', '1') => Some(WaveUnit1Cm)
    case ('I', 'S', 'N') => Some(IsotopicScalingOn)
    case ('I', 'S', 'F') => Some(IsotopicScalingOff)
    case ('H', 'F', 'H') => Some(HfsSplitting)
    case ('N', 'O', 'N') => Some(NoHfsSplitting)
    case _ => None
  }

  lemma SignatureDecodes(k: Keyword)
    ensures KeywordOf(Signature(k)) == Some(k)
  {
  }

  /** A line that passes a keyword's test has the keyword's signature. */
  lemma HitsSignature(s: seq<char>, k: Keyword)
    requires Hits(s, k)
    ensures Signature(k) == (s[0], s[1], s[Mark(k)])
  {
    SignatureSpelled(k);
    var n := PrefixLength(k);
    assert s[..n][0] == s[0] && s[..n][1] == s[1] && s[..n][Mark(k)] == s[Mark(k)];
  }

  /** No line passes two keywords' tests. */
  lemma HitsExclusive(s: seq<char>, k1: Keyword, k2: Keyword)
    requires Hits(s, k1) && Hits(s, k2)
    ensures k1 == k2
  {
    HitsSignature(s, k1);
    HitsSignature(s, k2);
    SignatureDistinct(k1, k2);
  }

  /** The keyword a line is read as, if any: the first whose test passes. */
  function Recognised(s: seq<char>): Option<Keyword> { FirstHit(s, 0) }

  /** Where a keyword stands in the order of the tests. */
  function Rank(k: Keyword): (j: nat)
    ensures j < KeywordCount && KeywordAt(j) == k
  {
    match k
    case LongFormat => 0
    case ShortFormat => 1
    case PersonalConfiguration => 2
    case DefaultConfiguration => 3
    case HaveRad => 4
    case HaveStark => 5
    case HaveWaals => 6
    case HaveLande => 7
    case HaveTerm => 8
    case DefaultWaals => 9
    case ExtendedWaals => 10
    case ZeemanPattern => 11
    case StarkBroadening => 12
    case ViaFtp => 13
    case EnergyUnitEv => 14
    case EnergyUnit1Cm => 15
    case MediumAir => 16
    case MediumVacuum => 17
    case WaveUnitAngstrom => 18
    case WaveUnitNm => 19
    case WaveUnit1Cm => 20
    case IsotopicScalingOn => 21
    case IsotopicScalingOff => 22
    case HfsSplitting => 23
    case NoHfsSplitting => 24
  }

  /** What the search finds passes its test. */
  lemma {:induction false} FirstHitHits(s: seq<char>, j: nat, k: Keyword)
    requires FirstHit(s, j) == Some(k)
    ensures Hits(s, k)
    decreases KeywordCount - j
  {
    if j < KeywordCount && !Hits(s, KeywordAt(j)) {
      FirstHitHits(s, j + 1, k);
    }
  }

  /** The search finds something when a keyword at or after `j` passes. */
  lemma {:induction false} FirstHitFinds(s: seq<char>, j: nat, i: nat)
    requires j <= i < KeywordCount && Hits(s, KeywordAt(i))
    ensures FirstHit(s, j).Some?
    decreases i - j
  {
    if !Hits(s, KeywordAt(j)) {
      FirstHitFinds(s, j + 1, i);
    }
  }

  /** A line is read as a keyword exactly when it passes that keyword's
      test: as no line passes two tests, their order does not matter. */
  lemma RecognisedIff(s: seq<char>, k: Keyword)
    ensures Recognised(s) == Some(k) <==> Hits(s, k)
  {
    if Recognised(s) == Some(k) {
      FirstHitHits(s, 0, k);
    }
    if Hits(s, k) {
      FirstHitFinds(s, 0, Rank(k));
      FirstHitHits(s, 0, Recognised(s).value);
      HitsExclusive(s, k, Recognised(s).value);
    }
  }

  /** A line is read as no keyword exactly when it passes no test. */
  lemma UnrecognisedIff(s: seq<char>)
    ensures Recognised(s) == None <==> forall k :: !Hits(s, k)
  {
    if Recognised(s).Some? {
      FirstHitHits(s, 0, Recognised(s).value);
    }
    forall k | Hits(s, k)
      ensures Recognised(s).Some?
    {
      RecognisedIff(s, k);
    }
  }

  /** The flags after the keyword's assignment. */
  function SetFlag(f: Flags, k: Keyword, personalConfig: ConfigFile): Flags
  {
    match k
    case LongFormat => f.(longFormat := 1)
    case ShortFormat => f.(longFormat := 0)
    case PersonalConfiguration => f.(personalConfiguration := if personalConfig == Unavailable then 0 else 1)
    case DefaultConfiguration => f.(personalConfiguration := 0)
    case HaveRad => f.(haveRadiativeDamping := 1)
    case HaveStark => f.(haveStarkDamping := 1)
    case HaveWaals => f.(haveVanderWaalsDamping := 1)
    case HaveLande => f.(haveLande := 1)
    case HaveTerm => f.(haveTermDesignation := 1)
    case DefaultWaals => f.(extendedWaals := 0)
    case ExtendedWaals => f.(extendedWaals := 1)
    case ZeemanPattern => f.(zeemanPattern := 1)
    case StarkBroadening => f.(starkBroadening := 1)
    case ViaFtp => f.(ftpRetrieval := 1)
    case EnergyUnitEv => f.(energyInInvCm := 0)
    case EnergyUnit1Cm => f.(energyInInvCm := 1)
    case MediumAir => f.(wavelengthInVac := 0)
    case MediumVacuum => f.(wavelengthInVac := 1)
    case WaveUnitAngstrom => f.(wavelengthUnits := 0)
    case WaveUnitNm => f.(wavelengthUnits := 1)
    case WaveUnit1Cm => f.(wavelengthUnits := 2)
    case IsotopicScalingOn => f.(isotopicScalingOfGf := 1)
    case IsotopicScalingOff => f.(isotopicScalingOfGf := 0)
    case HfsSplitting => f.(hfsSplitting := 1)
    case NoHfsSplitting => f.(hfsSplitting := 0)
  }

  /** The flags after a keyword line. */
  function Apply(f: Flags, k: Option<Keyword>, personalConfig: ConfigFile): Flags
  {
    match k
    case None => f
    case Some(k) => SetFlag(f, k, personalConfig)
  }

  /** A keyword changes its own flag, to its own value, and no other. */
  lemma SetFlagChangesOne(f: Flags, k: Keyword, personalConfig: ConfigFile)
    ensures FlagList(SetFlag(f, k, personalConfig)) == FlagList(f)[FlagIndex(k) := FlagValue(k, personalConfig)]
  {
  }

  /** A line that passes a keyword's test changes that keyword's flag, to
      the keyword's value, and no other; any other line changes nothing. */
  lemma KeywordLineEffect(s: seq<char>, f: Flags, personalConfig: ConfigFile)
    ensures forall k :: Hits(s, k) ==>
      FlagList(Apply(f, Recognised(s), personalConfig)) == FlagList(f)[FlagIndex(k) := FlagValue(k, personalConfig)]
    ensures (forall k :: !Hits(s, k)) ==> Apply(f, Recognised(s), personalConfig) == f
  {
    forall k | Hits(s, k)
      ensures FlagList(Apply(f, Recognised(s), personalConfig)) == FlagList(f)[FlagIndex(k) := FlagValue(k, personalConfig)]
    {
      RecognisedIff(s, k);
      SetFlagChangesOne(f, k, personalConfig);
    }
    UnrecognisedIff(s);
  }

  /** What `SetKeyword` is to arrive at for the upper-cased line `u` and
      the flags `f0`: the position of the test that passes (25 when none
      does), and the line and flags it leaves. */
  datatype Goal = Goal(u: seq<char>, f0: Flags, rank: nat, s: seq<char>, f: Flags)

  ghost function GoalOf(u: seq<char>, f0: Flags, personalConfig: ConfigFile): (g: Goal)
    requires |u| > 0
  {
    var r := Recognised(u);
    Goal(u, f0, if r.Some? then Rank(r.value) else KeywordCount,
         if r.Some? then u[0 := NUL] else u, Apply(f0, r, personalConfig))
  }

  /** Before the `j`-th test: no test has passed yet and the state is the
      initial one, or the test at `g.rank` has passed and left the final
      state. */
  ghost predicate Progress(g: Goal, s: seq<char>, f: Flags, j: nat)
  {
    (j <= g.rank && s == g.u && f == g.f0) || (g.rank < j && s == g.s && f == g.f)
  }

  /** Past the last test the final state has been reached. */
  lemma ProgressEnd(g: Goal, s: seq<char>, f: Flags, personalConfig: ConfigFile)
    requires |g.u| > 0 && g == GoalOf(g.u, g.f0, personalConfig) && Progress(g, s, f, KeywordCount)
    ensures s == g.s && f == g.f
  {
    if g.rank >= KeywordCount {
      assert Recognised(g.u).None?;
    }
  }

  /** A keyword's position in the order of the tests is the position it
      is found at. */
  lemma RankOfKeywordAt(j: nat)
    requires j < KeywordCount
    ensures Rank(KeywordAt(j)) == j
  {
  }

  /** The `j`-th test, for keyword `k`: it passes exactly when `k` is the
      recognised keyword and no earlier test has passed, and then the line
      is still the upper-cased line and the flags the initial ones; when it
      fails, the next test is reached in the same state. */
  lemma ProgressStep(g: Goal, s: seq<char>, f: Flags, j: nat, k: Keyword, personalConfig: ConfigFile)
    requires |g.u| > 0 && g == GoalOf(g.u, g.f0, personalConfig)
    requires j < KeywordCount && KeywordAt(j) == k && Progress(g, s, f, j)
    ensures KeyHit(s, Spelling(k), PrefixLength(k)) ==>
              g.rank == j && s == g.u && f == g.f0 && g.s == s[0 := NUL] && g.f == SetFlag(f, k, personalConfig)
    ensures !KeyHit(s, Spelling(k), PrefixLength(k)) ==> Progress(g, s, f, j + 1)
  {
    RankOfKeywordAt(j);
    if g.rank < j {
      assert StrLen(s) == 0;
    } else if KeyHit(s, Spelling(k), PrefixLength(k)) {
      RecognisedIff(g.u, k);
    } else if g.rank == j {
      RecognisedIff(g.u, KeywordAt(j));
    }
  }

  /** The global flags of backend/parserequest.c. */
  class RequestFlags {
    var personalConfiguration: int
    var longFormat: int
    var haveRadiativeDamping: int
    var haveStarkDamping: int
    var haveVanderWaalsDamping: int
    var haveLande: int
    var haveTermDesignation: int
    var extendedWaals: int
    var zeemanPattern: int
    var starkBroadening: int
    var ftpRetrieval: int
    var energyInInvCm: int
    var wavelengthInVac: int
    var wavelengthUnits: int
    var isotopicScalingOfGf: int
    var hfsSplitting: int

    /** The flags as a value. */
    function Snapshot(): Flags
      reads this
    {
      Flags(personalConfiguration, longFormat, haveRadiativeDamping, haveStarkDamping, haveVanderWaalsDamping, haveLande, haveTermDesignation, extendedWaals, zeemanPattern, starkBroadening, ftpRetrieval, energyInInvCm, wavelengthInVac, wavelengthUnits, isotopicScalingOfGf, hfsSplitting)
    }

    /** The flags as the program starts. */
    constructor ()
      ensures Snapshot() == DefaultFlags
    {
      personalConfiguration := 0;
      longFormat := 0;
      haveRadiativeDamping := 0;
      haveStarkDamping := 0;
      haveVanderWaalsDamping := 0;
      haveLande := 0;
      haveTermDesignation := 0;
      extendedWaals := 0;
      zeemanPattern := 0;
      starkBroadening := 0;
      ftpRetrieval := 0;
      energyInInvCm := 0;
      wavelengthInVac := 0;
      wavelengthUnits := 0;
      isotopicScalingOfGf := 1;
      hfsSplitting := 0;
    }

    /** `SetKeyword`: upper-cases the line and, if it starts with one of the
        keywords, sets that keyword's flag and empties the line. What becomes
        of the personal configuration's file is a parameter. Each call of `Test` is
        one `if` of the C function, in its order, grouped as the C
        function's comments group them; the C function tests the short
        format in an `else` of the long format's test, which is the same as
        testing it after, since a passed test empties the line. */
    method SetKeyword(s1: array<char>, personalConfig: ConfigFile)
      requires NUL in s1[..]
      modifies this, s1
      ensures var u := CUpper(old(s1[..]));
              Snapshot() == Apply(old(Snapshot()), Recognised(u), personalConfig)
      ensures var u := CUpper(old(s1[..]));
              s1[..] == if Recognised(u).Some? then u[0 := NUL] else u
    {
      Str2Upper(s1);
      ghost var g := GoalOf(s1[..], Snapshot(), personalConfig);
      FormatKeywords(s1, personalConfig, g);
      var stop := ConfigurationKeywords(s1, personalConfig, g);
      if stop {
        return;
      }
      HaveKeywords(s1, personalConfig, g);
      BroadeningKeywords(s1, personalConfig, g);
      RetrievalKeywords(s1, personalConfig, g);
      WaveUnitKeywords(s1, personalConfig, g);
      ScalingKeywords(s1, personalConfig, g);
      ProgressEnd(g, s1[..], Snapshot(), personalConfig);
    }

    /** The long or short format. */
    method FormatKeywords(s1: array<char>, personalConfig: ConfigFile, ghost g: Goal)
      requires |g.u| > 0 && g == GoalOf(g.u, g.f0, personalConfig)
      requires Progress(g, s1[..], Snapshot(), 0)
      modifies this, s1
      ensures Progress(g, s1[..], Snapshot(), 2)
    {
      var _ := Test(s1, 0, personalConfig, g);  // LongFormat
      var _ := Test(s1, 1, personalConfig, g);  // ShortFormat
    }

    /** The personal or the standard configuration, after either of which
        the C function returns (`stop`). */
    method ConfigurationKeywords(s1: array<char>, personalConfig: ConfigFile, ghost g: Goal) returns (stop: bool)
      requires |g.u| > 0 && g == GoalOf(g.u, g.f0, personalConfig)
      requires Progress(g, s1[..], Snapshot(), 2)
      modifies this, s1
      ensures Progress(g, s1[..], Snapshot(), 4)
      ensures stop ==> s1[..] == g.s && Snapshot() == g.f
    {
      stop := Test(s1, 2, personalConfig, g);  // PersonalConfiguration
      if stop {
        return;
      }
      stop := Test(s1, 3, personalConfig, g);  // DefaultConfiguration
    }

    /** The HAVE section: lines that have radiative, Stark or van der Waals
        damping, a Lande factor or term designations. */
    method HaveKeywords(s1: array<char>, personalConfig: ConfigFile, ghost g: Goal)
      requires |g.u| > 0 && g == GoalOf(g.u, g.f0, personalConfig)
      requires Progress(g, s1[..], Snapshot(), 4)
      modifies this, s1
      ensures Progress(g, s1[..], Snapshot(), 9)
    {
      var _ := Test(s1, 4, personalConfig, g);  // HaveRad
      var _ := Test(s1, 5, personalConfig, g);  // HaveStark
      var _ := Test(s1, 6, personalConfig, g);  // HaveWaals
      var _ := Test(s1, 7, personalConfig, g);  // HaveLande
      var _ := Test(s1, 8, personalConfig, g);  // HaveTerm
    }

    /** Van der Waals broadening, the Zeeman pattern and Stark broadening. */
    method BroadeningKeywords(s1: array<char>, personalConfig: ConfigFile, ghost g: Goal)
      requires |g.u| > 0 && g == GoalOf(g.u, g.f0, personalConfig)
      requires Progress(g, s1[..], Snapshot(), 9)
      modifies this, s1
      ensures Progress(g, s1[..], Snapshot(), 13)
    {
      var _ := Test(s1, 9, personalConfig, g);  // DefaultWaals
      var _ := Test(s1, 10, personalConfig, g);  // ExtendedWaals
      var _ := Test(s1, 11, personalConfig, g);  // ZeemanPattern
      var _ := Test(s1, 12, personalConfig, g);  // StarkBroadening
    }

    /** Retrieval by FTP, the energy unit and the medium of the wavelengths. */
    method RetrievalKeywords(s1: array<char>, personalConfig: ConfigFile, ghost g: Goal)
      requires |g.u| > 0 && g == GoalOf(g.u, g.f0, personalConfig)
      requires Progress(g, s1[..], Snapshot(), 13)
      modifies this, s1
      ensures Progress(g, s1[..], Snapshot(), 18)
    {
      var _ := Test(s1, 13, personalConfig, g);  // ViaFtp
      var _ := Test(s1, 14, personalConfig, g);  // EnergyUnitEv
      var _ := Test(s1, 15, personalConfig, g);  // EnergyUnit1Cm
      var _ := Test(s1, 16, personalConfig, g);  // MediumAir
      var _ := Test(s1, 17, personalConfig, g);  // MediumVacuum
    }

    /** The wavelength unit. */
    method WaveUnitKeywords(s1: array<char>, personalConfig: ConfigFile, ghost g: Goal)
      requires |g.u| > 0 && g == GoalOf(g.u, g.f0, personalConfig)
      requires Progress(g, s1[..], Snapshot(), 18)
      modifies this, s1
      ensures Progress(g, s1[..], Snapshot(), 21)
    {
      var _ := Test(s1, 18, personalConfig, g);  // WaveUnitAngstrom
      var _ := Test(s1, 19, personalConfig, g);  // WaveUnitNm
      var _ := Test(s1, 20, personalConfig, g);  // WaveUnit1Cm
    }

    /** Isotopic scaling of log gf and hyperfine splitting. */
    method ScalingKeywords(s1: array<char>, personalConfig: ConfigFile, ghost g: Goal)
      requires |g.u| > 0 && g == GoalOf(g.u, g.f0, personalConfig)
      requires Progress(g, s1[..], Snapshot(), 21)
      modifies this, s1
      ensures Progress(g, s1[..], Snapshot(), 25)
    {
      var _ := Test(s1, 21, personalConfig, g);  // IsotopicScalingOn
      var _ := Test(s1, 22, personalConfig, g);  // IsotopicScalingOff
      var _ := Test(s1, 23, personalConfig, g);  // HfsSplitting
      var _ := Test(s1, 24, personalConfig, g);  // NoHfsSplitting
    }

    /** One test of `SetKeyword`: compares the keyword's prefix and, when it
        matches, sets the keyword's flag and empties the line. The tests for
        the personal and the standard configuration end `SetKeyword`
        (`stop`), except when the personal configuration's file has just
        been created. */
    method Test(s1: array<char>, j: nat, personalConfig: ConfigFile, ghost g: Goal)
      returns (stop: bool)
      requires |g.u| > 0 && g == GoalOf(g.u, g.f0, personalConfig) && j < KeywordCount
      requires Progress(g, s1[..], Snapshot(), j)
      modifies this, s1
      ensures Progress(g, s1[..], Snapshot(), j + 1)
      ensures stop ==> s1[..] == g.s && Snapshot() == g.f
    {
      var k := KeywordAt(j);
      ProgressStep(g, s1[..], Snapshot(), j, k, personalConfig);
      stop := false;
      if KeyHit(s1[..], Spelling(k), PrefixLength(k)) {
        ghost var line := s1[..];
        SetFlagOf(k, personalConfig);
        stop := k == DefaultConfiguration || (k == PersonalConfiguration && personalConfig != Created);
        s1[0] := NUL;
        assert s1[..] == line[0 := NUL];
      }
    }

    /** The flag assignment of the keyword's test. */
    method SetFlagOf(k: Keyword, personalConfig: ConfigFile)
      modifies this
      ensures Snapshot() == SetFlag(old(Snapshot()), k, personalConfig)
    {
      ghost var target := SetFlag(Snapshot(), k, personalConfig);  // the flags to reach
      match k {
        case LongFormat => longFormat := 1;
        case ShortFormat => longFormat := 0;
        case PersonalConfiguration =>
          personalConfiguration := 1;
          if personalConfig == Unavailable {
            personalConfiguration := 0;
          }
        case DefaultConfiguration =>
          personalConfiguration := 0;
        case HaveRad => haveRadiativeDamping := 1;
        case HaveStark => haveStarkDamping := 1;
        case HaveWaals => haveVanderWaalsDamping := 1;
        case HaveLande => haveLande := 1;
        case HaveTerm => haveTermDesignation := 1;
        case DefaultWaals => extendedWaals := 0;
        case ExtendedWaals => extendedWaals := 1;
        case ZeemanPattern => zeemanPattern := 1;
        case StarkBroadening => starkBroadening := 1;
        case ViaFtp => ftpRetrieval := 1;
        case EnergyUnitEv => energyInInvCm := 0;
        case EnergyUnit1Cm => energyInInvCm := 1;
        case MediumAir => wavelengthInVac := 0;
        case MediumVacuum => wavelengthInVac := 1;
        case WaveUnitAngstrom => wavelengthUnits := 0;
        case WaveUnitNm => wavelengthUnits := 1;
        case WaveUnit1Cm => wavelengthUnits := 2;
        case IsotopicScalingOn => isotopicScalingOfGf := 1;
        case IsotopicScalingOff => isotopicScalingOfGf := 0;
        case HfsSplitting => hfsSplitting := 1;
        case NoHfsSplitting => hfsSplitting := 0;
      }
    }
  }

  // ---------------------------------------------------------------------------
  // GetElementNumber
  // ---------------------------------------------------------------------------

  /** The element symbols in order of atomic number, upper case, a
      one-letter symbol followed by a blank. */
  const Elements: seq<string> := [
    "H ", "HE", "LI", "BE", "B ", "C ", "N ", "O ", "F ", "NE",
    "NA", "MG", "AL", "SI", "P ", "S ", "CL", "AR", "K ", "CA",
    "SC", "TI", "V ", "CR", "MN", "FE", "CO", "NI", "CU", "ZN",
    "GA", "GE", "AS", "SE", "BR", "KR", "RB", "SR", "Y ", "ZR",
    "NB", "MO", "TC", "RU", "RH", "PD", "AG", "CD", "IN", "SN",
    "SB", "TE", "I ", "XE", "CS", "BA", "LA", "CE", "PR", "ND",
    "PM", "SM", "EU", "GD", "TB", "DY", "HO", "ER", "TM", "YB",
    "LU", "HF", "TA", "W ", "RE", "OS", "IR", "PT", "AU", "HG",
    "TL", "PB", "BI", "PO", "AT", "RN", "FR", "RA", "AC", "TH",
    "PA", "U ", "NP", "PU", "AM", "CM", "BK", "CF", "ES"
  ]

  /** One plus the index of the first entry of `table`, from the `i`-th
      on, that the text starts with (`strncmp` over two characters), or -1. */
  function FirstMatch(s: seq<char>, table: seq<string>, i: nat): (r: int)
    ensures r == -1 || (i < r <= |table| && KeyHit(s, table[r - 1], 2))
    decreases |table| - i
  {
    if i >= |table| then -1
    else if KeyHit(s, table[i], 2) then i + 1
    else FirstMatch(s, table, i + 1)
  }

  /** The atomic number of an upper-cased element name, or -1. */
  function ElementNumber(s: seq<char>): int { FirstMatch(s, Elements, 0) }

  /** The search from `i` on finds the first matching entry at or after
      `i`, and -1 exactly when none matches. */
  lemma {:induction false} FirstMatchMeans(s: seq<char>, table: seq<string>, i: nat)
    ensures var r := FirstMatch(s, table, i);
            && (r == -1 <==> forall j :: i <= j < |table| ==> !KeyHit(s, table[j], 2))
            && (r > 0 ==> forall j :: i <= j < r - 1 ==> !KeyHit(s, table[j], 2))
    decreases |table| - i
  {
    if i < |table| && !KeyHit(s, table[i], 2) {
      FirstMatchMeans(s, table, i + 1);
    }
  }

  /** `GetElementNumber` gives the atomic number of the first table entry
      the name's first two characters spell: an atomic number from 1 to 99,
      or -1 when no entry matches. */
  lemma ElementNumberMeans(s: seq<char>)
    ensures var r := ElementNumber(s);
            && (r == -1 || 1 <= r <= 99)
            && (r == -1 <==> forall j :: 0 <= j < |Elements| ==> !KeyHit(s, Elements[j], 2))
            && (r > 0 ==> KeyHit(s, Elements[r - 1], 2) && forall j :: 0 <= j < r - 1 ==> !KeyHit(s, Elements[j], 2))
  {
    FirstMatchMeans(s, Elements, 0);
  }

  /** A name shorter than two characters is no element, so a one-letter
      symbol is only found with its trailing blank. */
  lemma ShortNameUnknown(s: seq<char>)
    requires StrLen(s) < 2
    ensures ElementNumber(s) == -1
  {
  }

  /** `GetElementNumber`: upper-cases the name and looks up its first two
      characters; on a match it writes the second character back in lower
      case ("Fe", "H ") and returns the atomic number, otherwise -1. */
  method GetElementNumber(elname: array<char>) returns (r: int)
    requires NUL in elname[..]
    modifies elname
    ensures var u := CUpper(old(elname[..]));
            r == ElementNumber(u)
    ensures var u := CUpper(old(elname[..]));
            elname[..] == if r > 0 then u[1 := LowerChar(u[1])] else u
  {
    Str2Upper(elname);
    ghost var u := elname[..];
    var i := 0;
    while i < 99
      invariant 0 <= i <= 99 && elname[..] == u
      invariant FirstMatch(u, Elements, i) == ElementNumber(u)
    {
      if KeyHit(elname[..], Elements[i], 2) {
        if StrLen(elname[..]) > 1 {
          elname[1] := LowerChar(elname[1]);
        }
        return i + 1;
      }
      i := i + 1;
    }
    return -1;
  }

  // ---------------------------------------------------------------------------
  // FindNearestModel
  // ---------------------------------------------------------------------------

  /** A model atmosphere as its file name codes it: effective temperature
      and surface gravity. */
  datatype Model = Model(teff: int, logg: int)

  function Abs(x: int): nat { if x < 0 then -x else x }

  /** The selection rule: `m` is closer to `target` than `b` when its
      temperature is closer, or equally close with a closer gravity. */
  predicate Closer(m: Model, b: Model, target: Model)
  {
    Abs(m.teff - target.teff) < Abs(b.teff - target.teff)
    || (Abs(m.teff - target.teff) == Abs(b.teff - target.teff) && Abs(m.logg - target.logg) < Abs(b.logg - target.logg))
  }

  /** The best model the C function holds before any file is read:
      `tbest` and `gbest` start at -1. */
  const Phantom := Model(-1, -1)

  /** The model the C function holds after the first `n` directory entries,
      starting from `start`; an entry is `None` when its name does not
      parse as a model. */
  function HeldAfter(target: Model, names: seq<Option<Model>>, n: nat, start: Model): Model
    requires n <= |names|
  {
    if n == 0 then start
    else
      var b := HeldAfter(target, names, n - 1, start);
      if names[n - 1].Some? && Closer(names[n - 1].value, b, target) then names[n - 1].value else b
  }

  /** The C function as written: it reports a model only when the held
      one has non-negative temperature and gravity. Directory listing and
      file-name parsing are outside the model: `names` is the parsed
      listing, in `readdir` order. */
  method FindNearestModelAsWritten(target: Model, names: seq<Option<Model>>) returns (found: int, best: Model)
    ensures best == HeldAfter(target, names, |names|, Phantom)
    ensures found == if best.teff >= 0 && best.logg >= 0 then 1 else 0
  {
    var tbest, gbest := -1, -1;
    var i := 0;
    while i < |names|
      invariant 0 <= i <= |names|
      invariant Model(tbest, gbest) == HeldAfter(target, names, i, Phantom)
    {
      if names[i].Some? {
        var teff, logg := names[i].value.teff, names[i].value.logg;
        if Abs(teff - target.teff) < Abs(tbest - target.teff) {
          tbest, gbest := teff, logg;
        } else if Abs(teff - target.teff) == Abs(tbest - target.teff) && Abs(logg - target.logg) < Abs(gbest - target.logg) {
          tbest, gbest := teff, logg;
        }
      }
      i := i + 1;
    }
    best := Model(tbest, gbest);
    found := if tbest >= 0 && gbest >= 0 then 1 else 0;
  }

  /** The phantom start is a model no real one can beat unless its
      temperature is within `Teff` of the target (or equally far with a
      closer gravity): with a 5000 K target and a 10002 K model as the only
      one, nothing is selected. */
  lemma PhantomHidesModel()
    ensures var target := Model(5000, 40);
            var names := [Some(Model(10002, 40))];
            HeldAfter(target, names, 1, Phantom) == Phantom
            && Best(target, names, 1) == Some(Model(10002, 40))
  {
  }

  /** The intended selection: the closest of the parsed models of the
      first `n` entries, the first of equally close ones, or `None` when no
      entry parsed. */
  function Best(target: Model, names: seq<Option<Model>>, n: nat): Option<Model>
    requires n <= |names|
  {
    if n == 0 then None
    else
      var b := Best(target, names, n - 1);
      if names[n - 1].Some? && (b.None? || Closer(names[n - 1].value, b.value, target)) then names[n - 1] else b
  }

  /** The selection finds a model exactly when some entry parsed; that
      model is one of the entries, no entry is closer, and every earlier
      entry is farther (the first of equally close models is chosen). */
  lemma {:induction false} BestMeans(target: Model, names: seq<Option<Model>>, n: nat)
    requires n <= |names|
    ensures Best(target, names, n).Some? <==> exists i :: 0 <= i < n && names[i].Some?
    ensures Best(target, names, n).Some? ==>
      exists i :: 0 <= i < n && names[i] == Best(target, names, n)
        && (forall j :: 0 <= j < i && names[j].Some? ==> Closer(names[i].value, names[j].value, target))
    ensures Best(target, names, n).Some? ==>
      forall j :: 0 <= j < n && names[j].Some? ==> !Closer(names[j].value, Best(target, names, n).value, target)
  {
    if n > 0 {
      BestMeans(target, names, n - 1);
      var b := Best(target, names, n - 1);
      var e := names[n - 1];
      if e.Some? && (b.None? || Closer(e.value, b.value, target)) {
        forall j | 0 <= j < n - 1 && names[j].Some?
          ensures Closer(e.value, names[j].value, target)
        {
        }
      } else if b.Some? {
        var i :| 0 <= i < n - 1 && names[i] == b
          && (forall j :: 0 <= j < i && names[j].Some? ==> Closer(names[i].value, names[j].value, target));
        assert 0 <= i < n && names[i] == Best(target, names, n);
      }
    }
  }

  /** The C function with its start corrected: a model is selected
      whenever one parsed. */
  method FindNearestModel(target: Model, names: seq<Option<Model>>) returns (found: int, best: Option<Model>)
    ensures best == Best(target, names, |names|)
    ensures found == if best.Some? then 1 else 0
  {
    best := None;
    var i := 0;
    while i < |names|
      invariant 0 <= i <= |names|
      invariant best == Best(target, names, i)
    {
      if names[i].Some? && (best.None? || Closer(names[i].value, best.value, target)) {
        best := names[i];
      }
      i := i + 1;
    }
    found := if best.Some? then 1 else 0;
  }

  /** Whenever the C function as written reports a model, it is the one
      the corrected selection chooses. */
  lemma {:induction false} AsWrittenAgrees(target: Model, names: seq<Option<Model>>, n: nat)
    requires n <= |names|
    ensures var w := HeldAfter(target, names, n, Phantom);
            (w == Phantom && forall i :: 0 <= i < n && names[i].Some? ==> !Closer(names[i].value, Phantom, target))
            || Best(target, names, n) == Some(w)
  {
    if n > 0 {
      AsWrittenAgrees(target, names, n - 1);
      BestMeans(target, names, n - 1);
      var b := Best(target, names, n - 1);
      if b.Some? {
        var i :| 0 <= i < n - 1 && names[i] == b;
      }
    }
  }

  /** The as-written result, when reported, is the corrected one. */
  lemma FoundAgrees(target: Model, names: seq<Option<Model>>)
    ensures var w := HeldAfter(target, names, |names|, Phantom);
            w.teff >= 0 && w.logg >= 0 ==> Best(target, names, |names|) == Some(w)
  {
    AsWrittenAgrees(target, names, |names|);
  }

}
