/** The validation rules of the request forms in vald/forms.py. A field's
    cleaned value is `None` when the field is empty or failed its own
    validation; a cleaned text field arrives stripped. A rule either
    returns the cleaned value or fails with the message it raises. */
module Forms {
  import opened Wrappers
  import opened Text

  /** Truthiness of an optional float field. */
  predicate Given(x: Option<real>) { x.Some? && x.value != 0.0 }

  /** Truthiness of an optional text field. */
  predicate Filled(s: Option<string>) { s.Some? && s.value != [] }

  const InvertedRangeMessage := "The 'Ending wavelength' cannot be smaller than or equal to the 'Starting wavelength'"
  const WideRangeMessage := "The maximum wavelength range that can be requested by email is 50 Å. Select FTP method!"

  /** The `clean` of the three extraction forms: with both ends given, the
      range must be increasing and, unless delivered by FTP, at most 50 Å
      wide. */
  function CleanRange(stwvl: Option<real>, endwvl: Option<real>, viaftp: Option<string>): (r: Result<(), string>)
    ensures r.Failure? ==> r.error == InvertedRangeMessage || r.error == WideRangeMessage
  {
    if Given(stwvl) && Given(endwvl) then
      if endwvl.value <= stwvl.value then Failure(InvertedRangeMessage)
      else if endwvl.value - stwvl.value > 50.0 && viaftp != Some("via ftp") then Failure(WideRangeMessage)
      else Success(())
    else Success(())
  }

  /** A range is accepted exactly when an end is missing, or it increases
      and is at most 50 Å wide or goes by FTP. Exactly 50 Å is allowed. */
  lemma CleanRangeAccepts(stwvl: Option<real>, endwvl: Option<real>, viaftp: Option<string>)
    ensures CleanRange(stwvl, endwvl, viaftp).Success? <==>
              !Given(stwvl) || !Given(endwvl)
              || (stwvl.value < endwvl.value && (endwvl.value - stwvl.value <= 50.0 || viaftp == Some("via ftp")))
    ensures Given(stwvl) && Given(endwvl) && endwvl.value <= stwvl.value ==>
              CleanRange(stwvl, endwvl, viaftp) == Failure(InvertedRangeMessage)
    ensures Given(stwvl) && stwvl.value > 0.0 && endwvl == Some(stwvl.value + 50.0) ==>
              CleanRange(stwvl, endwvl, viaftp).Success?
  {
  }

  /** The check of `clean_elmion`, `clean_el0` and
      `_validate_element_ionization`: a second word, if any, is a number. */
  predicate IonizationIsNumber(parts: seq<string>)
  {
    |parts| > 1 ==> IsDigitString(parts[1])
  }

  const IonizationMessage := "Please express the ionization stage as an arabic number"

  /** `clean_elmion` and `clean_el0`: the stripped text, as long as its second
      word is a number; later words are not looked at. */
  function CleanElementIon(raw: string): (r: Result<string, string>)
    ensures r.Success? ==> r.value == Strip(raw)
    ensures r.Success? <==> IonizationIsNumber(SplitWs(Strip(raw)))
    ensures r.Failure? ==> r.error == IonizationMessage
  {
    var e := Strip(raw);
    var parts := SplitWs(e);
    if |parts| > 1 && parts[1] != [] && !IsDigitString(parts[1]) then Failure(IonizationMessage) else Success(e)
  }

  /** `_validate_element_ionization`. */
  predicate ValidElementIonization(s: string)
  {
    s == [] || IonizationIsNumber(SplitWs(s))
  }

  /** On a stripped field the set check and the single-field check agree. */
  lemma ElementChecksAgree(s: string)
    requires Strip(s) == s
    ensures ValidElementIonization(s) <==> CleanElementIon(s).Success?
  {
    if s == [] {
      assert SplitWs(s) == [];
    }
  }

  /** One set of the show-line form. */
  datatype LineSet = LineSet(wvl: Option<real>, win: Option<real>, el: Option<string>)

  predicate SetUsed(s: LineSet) { Given(s.wvl) || Given(s.win) || Filled(s.el) }

  /** A set that is empty, or complete with a valid element. */
  predicate SetValid(s: LineSet)
  {
    SetUsed(s) ==> Given(s.wvl) && Given(s.win) && Filled(s.el) && ValidElementIonization(s.el.value)
  }

  /** The error a used set raises, checked field by field. */
  function SetError(i: nat, s: LineSet): (r: string)
    requires !SetValid(s)
    ensures StartsWith(r, "Set " + NatToString(i) + ": ")
  {
    var prefix := "Set " + NatToString(i) + ": ";
    if !Given(s.wvl) then prefix + "Please enter a value in the 'Approximate wavelength' field"
    else if !Given(s.win) then prefix + "Please enter a value in the 'Wavelength window' field"
    else if !Filled(s.el) then prefix + "Please enter a value in the 'Element + ionization' field"
    else prefix + IonizationMessage
  }

  const NoSetMessage := "Please fill in at least one complete set of wavelength/window/element"

  /** The index of the first invalid set, or `|sets|`. */
  function FirstInvalid(sets: seq<LineSet>): (i: nat)
    ensures i <= |sets| && (forall j :: 0 <= j < i ==> SetValid(sets[j])) && (i < |sets| ==> !SetValid(sets[i]))
  {
    if sets == [] then 0 else if !SetValid(sets[0]) then 0 else 1 + FirstInvalid(sets[1..])
  }

  /** `ShowLineForm.clean`: every set is empty or complete, and at least one
      set is used; the first set at fault gives the message. */
  method CleanShowLine(sets: seq<LineSet>) returns (r: Result<(), string>)
    requires |sets| == 5
    ensures r.Success? <==> (forall i :: 0 <= i < |sets| ==> SetValid(sets[i])) && exists i :: 0 <= i < |sets| && SetUsed(sets[i])
    ensures FirstInvalid(sets) < |sets| ==> r == Failure(SetError(FirstInvalid(sets), sets[FirstInvalid(sets)]))
    ensures FirstInvalid(sets) == |sets| && r.Failure? ==> r.error == NoSetMessage
  {
    var hasData := false;
    for i := 0 to 5
      invariant FirstInvalid(sets) >= i
      invariant hasData <==> exists j :: 0 <= j < i && SetUsed(sets[j])
    {
      var s := sets[i];
      if Given(s.wvl) || Given(s.win) || Filled(s.el) {
        hasData := true;
        if !Given(s.wvl) || !Given(s.win) || !Filled(s.el) || !ValidElementIonization(s.el.value) {
          assert FirstInvalid(sets) == i;
          return Failure(SetError(i, s));
        }
      }
      assert FirstInvalid(sets) != i;
    }
    if !hasData {
      return Failure(NoSetMessage);
    }
    return Success(());
  }

  const EmailMessage := "Your email address should at least contain a '@'!"

  /** `ContactForm.clean_contactemail`: an address needs an '@'. */
  function CleanContactEmail(email: string): (r: Result<string, string>)
    ensures r.Success? <==> '@' in email
    ensures r.Success? ==> r.value == email
  {
    if '@' !in email then Failure(EmailMessage) else Success(email)
  }
}
