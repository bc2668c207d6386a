/** The password strength indicator shown under the registration form: five
    requirements, how many a password meets, the strength band drawn from that
    count, and the stand-alone `validatePassword` check. */
module PasswordStrength {
  import opened Common
  import opened JsText

  datatype Requirement = MinLength | Uppercase | Lowercase | Digit | Special

  /** The requirements in the order the indicator lists them. */
  const Requirements: seq<Requirement> := [MinLength, Uppercase, Lowercase, Digit, Special]

  const MinPasswordLength: nat := 8

  /** The character class `[!@#$%^&*()_+\-=\[\]{};':"\\|,.<>\/?]`. */
  const SpecialCharacters: string := "!@#$%^&*()_+-=[]{};':\"\\|,.<>/?"

  predicate IsUpper(c: char) { 'A' <= c <= 'Z' }
  predicate IsLower(c: char) { 'a' <= c <= 'z' }
  predicate IsDigit(c: char) { '0' <= c <= '9' }
  predicate IsSpecial(c: char) { c in SpecialCharacters }

  predicate HasUpper(p: string) { exists i :: 0 <= i < |p| && IsUpper(p[i]) }
  predicate HasLower(p: string) { exists i :: 0 <= i < |p| && IsLower(p[i]) }
  predicate HasDigit(p: string) { exists i :: 0 <= i < |p| && IsDigit(p[i]) }
  predicate HasSpecial(p: string) { exists i :: 0 <= i < |p| && IsSpecial(p[i]) }

  /** The `test` of one requirement. */
  predicate Meets(r: Requirement, p: string)
    ensures Meets(r, p) ==> |p| > 0
  {
    match r
    case MinLength => Utf16Length(p) >= MinPasswordLength
    case Uppercase => HasUpper(p)
    case Lowercase => HasLower(p)
    case Digit => HasDigit(p)
    case Special => HasSpecial(p)
  }

  /** `reqs.filter(req => req.test(p)).length`. */
  function CountMet(reqs: seq<Requirement>, p: string): (n: nat)
    ensures n <= |reqs|
    ensures n == |reqs| <==> forall i :: 0 <= i < |reqs| ==> Meets(reqs[i], p)
    ensures n == 0 <==> forall i :: 0 <= i < |reqs| ==> !Meets(reqs[i], p)
  {
    if reqs == [] then 0
    else
      var rest := CountMet(reqs[1..], p);
      assert forall i :: 1 <= i < |reqs| ==> reqs[i] == reqs[1..][i - 1];
      (if Meets(reqs[0], p) then 1 else 0) + rest
  }

  /** `getMetRequirements()`: how many of the five requirements `p` meets. */
  function MetRequirements(p: string): (n: nat)
    ensures n <= |Requirements| == 5
  {
    CountMet(Requirements, p)
  }

  /** The exported `validatePassword`: every entry of its own list of five
      tests is `true`. */
  function ValidatePassword(p: string): (ok: bool)
    ensures ok <==>
      && Utf16Length(p) >= 8
      && HasUpper(p) && HasLower(p) && HasDigit(p)
      && HasSpecial(p)
  {
    var checks := [Utf16Length(p) >= MinPasswordLength, HasUpper(p), HasLower(p), HasDigit(p), HasSpecial(p)];
    assert checks[0] && checks[1] && checks[2] && checks[3] && checks[4] ==> forall i :: 0 <= i < |checks| ==> checks[i];
    forall i :: 0 <= i < |checks| ==> checks[i]
  }

  /** The two lists of tests are the same five predicates: a password is valid
      exactly when the indicator counts every requirement as met. */
  lemma ValidateAgreesWithCount(p: string)
    ensures ValidatePassword(p) <==> MetRequirements(p) == |Requirements|
  {
    var all := forall i :: 0 <= i < |Requirements| ==> Meets(Requirements[i], p);
    assert all <==> Meets(MinLength, p) && Meets(Uppercase, p) && Meets(Lowercase, p)
                    && Meets(Digit, p) && Meets(Special, p) by {
      if Meets(MinLength, p) && Meets(Uppercase, p) && Meets(Lowercase, p) && Meets(Digit, p) && Meets(Special, p) {
        forall i | 0 <= i < |Requirements| ensures Meets(Requirements[i], p) {
          assert i == 0 || i == 1 || i == 2 || i == 3 || i == 4;
        }
      }
      if all {
        assert Requirements[0] == MinLength && Requirements[1] == Uppercase && Requirements[2] == Lowercase;
        assert Requirements[3] == Digit && Requirements[4] == Special;
      }
    }
  }

  /** Appending characters never makes a test fail that passed before. */
  lemma MeetsMonotone(r: Requirement, p: string, q: string)
    requires Meets(r, p)
    ensures Meets(r, p + q)
  {
    match r
    case MinLength => Utf16LengthAppend(p, q);
    case Uppercase => var i :| 0 <= i < |p| && IsUpper(p[i]); assert (p + q)[i] == p[i];
    case Lowercase => var i :| 0 <= i < |p| && IsLower(p[i]); assert (p + q)[i] == p[i];
    case Digit => var i :| 0 <= i < |p| && IsDigit(p[i]); assert (p + q)[i] == p[i];
    case Special => var i :| 0 <= i < |p| && IsSpecial(p[i]); assert (p + q)[i] == p[i];
  }

  lemma {:induction false} CountMetMonotone(reqs: seq<Requirement>, p: string, q: string)
    ensures CountMet(reqs, p) <= CountMet(reqs, p + q)
    decreases |reqs|
  {
    if reqs != [] {
      CountMetMonotone(reqs[1..], p, q);
      if Meets(reqs[0], p) {
        MeetsMonotone(reqs[0], p, q);
      }
    }
  }

  /** Typing more characters never lowers the met count. */
  lemma MetRequirementsMonotone(p: string, q: string)
    ensures MetRequirements(p) <= MetRequirements(p + q)
    ensures ValidatePassword(p) ==> ValidatePassword(p + q)
  {
    CountMetMonotone(Requirements, p, q);
    ValidateAgreesWithCount(p);
    ValidateAgreesWithCount(p + q);
  }

  /** `getStrengthText()`. */
  function StrengthText(p: string): (text: string)
    ensures text == "Senha forte" <==> MetRequirements(p) == 5
    ensures text == "Senha média" <==> 3 <= MetRequirements(p) < 5
    ensures text == "Senha fraca" <==> 1 <= MetRequirements(p) <= 2
    ensures text == "Senha muito fraca" <==> MetRequirements(p) == 0
  {
    var metCount := MetRequirements(p);
    if metCount == |Requirements| then "Senha forte"
    else if metCount >= 3 then "Senha média"
    else if metCount >= 1 then "Senha fraca"
    else "Senha muito fraca"
  }

  /** The colour classes of the strength bar, `bg-<colour>-500`. */
  datatype BarColour = Green | Yellow | Orange | Red

  /** `getStrengthColor()`. */
  function StrengthColour(p: string): (colour: BarColour)
    ensures colour == Green <==> MetRequirements(p) == 5
    ensures colour == Yellow <==> 3 <= MetRequirements(p) < 5
    ensures colour == Orange <==> 1 <= MetRequirements(p) <= 2
    ensures colour == Red <==> MetRequirements(p) == 0
  {
    var metCount := MetRequirements(p);
    if metCount == |Requirements| then Green
    else if metCount >= 3 then Yellow
    else if metCount >= 1 then Orange
    else Red
  }

  /** The bar colour and the strength text are drawn from the same thresholds. */
  lemma ColourMatchesText(p: string)
    ensures StrengthColour(p) == Green <==> StrengthText(p) == "Senha forte"
    ensures StrengthColour(p) == Yellow <==> StrengthText(p) == "Senha média"
    ensures StrengthColour(p) == Orange <==> StrengthText(p) == "Senha fraca"
    ensures StrengthColour(p) == Red <==> StrengthText(p) == "Senha muito fraca"
  {
  }

  /** The colour of the strength text has only three bands: weak and very weak
      passwords share red. */
  datatype TextColour = TextGreen | TextYellow | TextRed

  function StrengthTextColour(p: string): (colour: TextColour)
    ensures colour == TextGreen <==> StrengthColour(p) == Green
    ensures colour == TextYellow <==> StrengthColour(p) == Yellow
    ensures colour == TextRed <==> StrengthColour(p) in {Orange, Red}
  {
    var metCount := MetRequirements(p);
    if metCount == |Requirements| then TextGreen
    else if metCount >= 3 then TextYellow
    else TextRed
  }

  /** `(metCount / requirements.length) * 100`; for counts 0 to 5 the
      floating-point result is the exact integer `metCount * 20`. */
  function StrengthPercentage(p: string): (pct: nat)
    ensures pct == 20 * MetRequirements(p)
    ensures pct <= 100 && pct % 20 == 0
    ensures pct == 100 <==> ValidatePassword(p)
    ensures pct == 0 <==> StrengthColour(p) == Red
  {
    ValidateAgreesWithCount(p);
    MetRequirements(p) * 20
  }

  /** For each listed requirement, whether it is shown as met. */
  function RequirementChecklist(p: string): (flags: seq<bool>)
    ensures |flags| == |Requirements|
    ensures forall i :: 0 <= i < |flags| ==> (flags[i] <==> Meets(Requirements[i], p))
  {
    seq(|Requirements|, i requires 0 <= i < |Requirements| => Meets(Requirements[i], p))
  }

  function CountTrue(flags: seq<bool>): nat {
    if flags == [] then 0 else (if flags[0] then 1 else 0) + CountTrue(flags[1..])
  }

  lemma {:induction false} CountTrueMatchesCountMet(reqs: seq<Requirement>, flags: seq<bool>, p: string)
    requires |flags| == |reqs|
    requires forall i :: 0 <= i < |flags| ==> (flags[i] <==> Meets(reqs[i], p))
    ensures CountTrue(flags) == CountMet(reqs, p)
    decreases |reqs|
  {
    if reqs != [] {
      CountTrueMatchesCountMet(reqs[1..], flags[1..], p);
    }
  }

  /** What the indicator renders: nothing for an empty password. */
  datatype IndicatorView = IndicatorView(
    barColour: BarColour, percentage: nat, text: string, textColour: TextColour,
    metCount: nat, total: nat, checklist: seq<bool>)

  function Render(p: string): (view: Option<IndicatorView>)
    ensures view.None? <==> p == ""
    ensures view.Some? ==>
      && view.value.total == |view.value.checklist| == |Requirements|
      && (forall i :: 0 <= i < |view.value.checklist| ==>
            (view.value.checklist[i] <==> Meets(Requirements[i], p)))
      && view.value.metCount == MetRequirements(p) == CountTrue(view.value.checklist)
      && view.value.percentage == StrengthPercentage(p)
      && view.value.text == StrengthText(p)
      && view.value.barColour == StrengthColour(p)
      && view.value.textColour == StrengthTextColour(p)
      && (view.value.percentage == 100 <==> ValidatePassword(p))
  {
    if p == "" then None
    else
      var checklist := RequirementChecklist(p);
      CountTrueMatchesCountMet(Requirements, checklist, p);
      Some(IndicatorView(StrengthColour(p), StrengthPercentage(p), StrengthText(p),
                         StrengthTextColour(p), MetRequirements(p), |Requirements|, checklist))
  }

  /** The empty password meets no requirement, and nothing is drawn for it. */
  lemma EmptyPassword()
    ensures MetRequirements("") == 0
    ensures StrengthText("") == "Senha muito fraca"
    ensures Render("") == None
  {
    assert !Meets(MinLength, "") && !Meets(Uppercase, "") && !Meets(Lowercase, "");
    assert !Meets(Digit, "") && !Meets(Special, "");
    assert forall i :: 0 <= i < |Requirements| ==> Requirements[i] in {MinLength, Uppercase, Lowercase, Digit, Special};
  }
}
