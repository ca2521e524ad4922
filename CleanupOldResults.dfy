/** The age argument and the job-directory test of the `cleanup_old_results`
    management command. An age is one or more digits and one unit letter,
    case-insensitive: M minutes, H hours, D days, W weeks. Ages are measured
    here in minutes. */
module CleanupOldResults {
  import opened Wrappers
  import opened Text

  datatype TimeUnit = Minutes | Hours | Days | Weeks

  function UnitLetter(u: TimeUnit): char
  {
    match u
    case Minutes => 'M'
    case Hours => 'H'
    case Days => 'D'
    case Weeks => 'W'
  }

  function UnitMinutes(u: TimeUnit): nat
  {
    match u
    case Minutes => 1
    case Hours => 60
    case Days => 24 * 60
    case Weeks => 7 * 24 * 60
  }

  function LetterUnit(c: char): Option<TimeUnit>
  {
    if c == 'M' then Some(Minutes)
    else if c == 'H' then Some(Hours)
    else if c == 'D' then Some(Days)
    else if c == 'W' then Some(Weeks)
    else None
  }

  /** What a pattern anchored with `$` sees: the text without one final
      newline, which `$` also accepts before. */
  function BeforeFinalNewline(s: string): (r: string)
    ensures |r| <= |s| && r == s[..|r|]
  {
    if |s| > 0 && s[|s| - 1] == '\n' then s[..|s| - 1] else s
  }

  /** The message of the `ValueError` for a rejected age, quoting the
      argument as given. */
  function AgeFormatError(age: string): string
  {
    "Invalid age format: " + age + ". "
    + "Expected format like '2D' (days), '3H' (hours), '30M' (minutes), '1W' (weeks)"
  }

  /** `timedelta` holds less than 10^9 days: an age of that many minutes or
      more makes `parse_age` raise `OverflowError` when it builds the
      `timedelta`. */
  const AgeLimitMinutes: nat := 1000000000 * 24 * 60

  /** The `OverflowError` of an age too large for `timedelta` (its message,
      which depends on the size, is not modelled). */
  const AgeOverflowError := "OverflowError"

  /** `parse_age`: the upper-cased argument must be digits followed by one
      unit letter, or it is the `ValueError` the command reports; an age that
      `timedelta` cannot hold is an `OverflowError`. */
  function ParseAge(age: string): (r: Result<nat, string>)
    ensures r.Success? ==> r.value < AgeLimitMinutes
    ensures r.Failure? ==> r.error == AgeFormatError(age) || r.error == AgeOverflowError
    ensures |age| < 2 ==> r == Failure(AgeFormatError(age))
  {
    match AgeMinutes(BeforeFinalNewline(Upper(age)))
    case Some(minutes) => if minutes < AgeLimitMinutes then Success(minutes) else Failure(AgeOverflowError)
    case None => Failure(AgeFormatError(age))
  }

  /** The match of `^(\d+)([MHDW])$` against upper-cased text, as minutes. */
  function AgeMinutes(u: string): (r: Option<nat>)
    ensures |u| < 2 ==> r.None?
  {
    if |u| >= 2 && IsDigitString(u[..|u| - 1]) && LetterUnit(u[|u| - 1]).Some? then
      Some(DigitsValue(u[..|u| - 1]) * UnitMinutes(LetterUnit(u[|u| - 1]).value))
    else None
  }

  /** The canonical spelling of an age: its count and its unit letter. */
  function FormatAge(count: nat, u: TimeUnit): string
  {
    NatToString(count) + [UnitLetter(u)]
  }

  lemma UpperOfFormat(count: nat, u: TimeUnit)
    ensures Upper(FormatAge(count, u)) == FormatAge(count, u)
  {
    var s := FormatAge(count, u);
    forall i | 0 <= i < |s| ensures UpperChar(s[i]) == s[i] {
      if i < |NatToString(count)| {
        assert IsDigit(NatToString(count)[i]);
      }
    }
  }

  /** Every count followed by a unit letter is accepted, with that count of
      that unit as its value, when `timedelta` can hold it: "2D" is two days,
      "30M" thirty minutes. */
  lemma {:induction false} ParseFormattedAge(count: nat, u: TimeUnit)
    requires count * UnitMinutes(u) < AgeLimitMinutes
    ensures ParseAge(FormatAge(count, u)) == Success(count * UnitMinutes(u))
  {
    var s := FormatAge(count, u);
    UpperOfFormat(count, u);
    assert BeforeFinalNewline(Upper(s)) == s;
    FormattedAgeMinutes(count, u);
  }

  /** A well-formed age of 10^9 days or more is the `OverflowError`:
      "1000000000D", "142857143W", "24000000000H". */
  lemma {:induction false} ParseOverflowingAge(count: nat, u: TimeUnit)
    requires count * UnitMinutes(u) >= AgeLimitMinutes
    ensures ParseAge(FormatAge(count, u)) == Failure(AgeOverflowError)
  {
    var s := FormatAge(count, u);
    UpperOfFormat(count, u);
    assert BeforeFinalNewline(Upper(s)) == s;
    FormattedAgeMinutes(count, u);
  }

  lemma FormattedAgeMinutes(count: nat, u: TimeUnit)
    ensures AgeMinutes(FormatAge(count, u)) == Some(count * UnitMinutes(u))
  {
    var s := FormatAge(count, u);
    var digits := NatToString(count);
    assert s[..|s| - 1] == digits && s[|s| - 1] == UnitLetter(u);
    assert LetterUnit(UnitLetter(u)) == Some(u);
  }

  /** The unit letter may be given in either case. */
  lemma {:induction false} ParseLowerCaseAge(count: nat, u: TimeUnit)
    requires count * UnitMinutes(u) < AgeLimitMinutes
    ensures ParseAge(Lower(FormatAge(count, u))) == Success(count * UnitMinutes(u))
  {
    var s := FormatAge(count, u);
    var l := Lower(s);
    UpperOfFormat(count, u);
    assert Upper(l) == s by {
      forall i | 0 <= i < |s| ensures UpperChar(LowerChar(s[i])) == s[i] {
        if i < |NatToString(count)| {
          assert IsDigit(NatToString(count)[i]);
        }
      }
    }
    assert BeforeFinalNewline(Upper(l)) == s;
    FormattedAgeMinutes(count, u);
  }

  /** M is minutes, not months. */
  lemma MIsMinutes()
    ensures ParseAge("1M") == Success(1) && ParseAge("1m") == Success(1)
  {
    ParseFormattedAge(1, Minutes);
    ParseLowerCaseAge(1, Minutes);
    assert FormatAge(1, Minutes) == "1M";
    assert Lower("1M") == "1m";
  }

  /** The bound falls between 999999999 and 1000000000 days; a week count
      crosses it at 142857143. */
  lemma TimedeltaBoundary()
    ensures ParseAge(FormatAge(999999999, Days)) == Success(999999999 * 24 * 60)
    ensures ParseAge(FormatAge(1000000000, Days)) == Failure(AgeOverflowError)
    ensures ParseAge(FormatAge(142857142, Weeks)).Success?
    ensures ParseAge(FormatAge(142857143, Weeks)) == Failure(AgeOverflowError)
  {
    ParseFormattedAge(999999999, Days);
    ParseOverflowingAge(1000000000, Days);
    ParseFormattedAge(142857142, Weeks);
    ParseOverflowingAge(142857143, Weeks);
  }

  /** A count without a unit, a unit before the count, and a sign are all refused. */
  lemma RejectedAges()
    ensures ParseAge("2").Failure? && ParseAge("D2").Failure? && ParseAge("-1D").Failure?
  {
    assert Upper("2") == "2";
    assert Upper("D2") == "D2";
    assert !IsDigit('D');
    var m := Upper("-1D");
    assert m == "-1D";
    assert m[..|m| - 1][0] == '-';
  }

  /** The cleanup looks only into directories named by exactly six digits
      (the anchored pattern also lets one final newline through). */
  predicate IsJobDirName(name: string)
  {
    var b := BeforeFinalNewline(name);
    |b| == 6 && AllDigits(b)
  }

  /** A job directory is named by its backend ID, six digits with leading zeros. */
  function JobDirName(backendId: nat): string
  {
    ZeroPad(backendId, 6)
  }

  /** Every backend ID below a million names a directory the cleanup looks into. */
  lemma {:induction false} JobDirsQualify(backendId: nat)
    requires backendId <= 999999
    ensures IsJobDirName(JobDirName(backendId))
  {
    NatToStringLength(backendId);
    var name := JobDirName(backendId);
    assert |name| == 6;
    assert name[|name| - 1] != '\n' by { assert IsDigit(name[|name| - 1]); }
  }

  /** The decimal notation of a number below a million has at most six digits. */
  lemma {:induction false} NatToStringLength(n: nat)
    requires n <= 999999
    ensures |NatToString(n)| <= 6
  {
    NatToStringShorter(n, 5);
  }
}
