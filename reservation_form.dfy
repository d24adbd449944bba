/**
 * The reservation form: the per-input rule chain of the validator, the
 * hand-written equivalents of its two regular expressions and of the
 * `isNaN` / `< 1` / `parseInt` reading of the day count, and the total and
 * submit-button state recomputed on every change.
 */
module ReservationForm {
  import opened Wrappers
  import opened Text
  import opened Records

  datatype FieldName = Name | Phone | Email | License | StartDate | Days

  /** One `<input>` of the form: its `name` attribute and its raw value. */
  datatype Input = Input(name: FieldName, value: string)

  /**
   * The text shown next to an input: empty, "Required", "Invalid email",
   * "Invalid phone", "Invalid license" or "Invalid days".
   */
  datatype Feedback = NoFeedback | Required | InvalidEmail | InvalidPhone | InvalidLicense | InvalidDays

  /** The inputs in document order, as `$form.find('input')` visits them. */
  function Inputs(d: Draft): seq<Input> {
    [Input(Name, d.name), Input(Phone, d.phone), Input(Email, d.email),
     Input(License, d.license), Input(StartDate, d.startDate), Input(Days, d.days)]
  }

  // ---------- email: /^[^@]+@[^@]+\.[^@]+$/ ----------

  /**
   * The email regex read literally: a non-empty run without `@`, an `@`, a
   * non-empty run without `@`, a `.`, and a non-empty run without `@`.
   */
  predicate EmailPattern(v: string) {
    exists at, dot | 0 < at < dot < |v| - 1 :: EmailSplit(v, at, dot)
  }

  /** `v` splits at the `@` at `at` and the `.` at `dot` as the email regex requires. */
  predicate EmailSplit(v: string, at: nat, dot: nat)
    requires at < dot < |v|
  {
    && v[at] == '@' && v[dot] == '.' && at + 1 < dot
    && '@' !in v[..at] && '@' !in v[at + 1..dot] && '@' !in v[dot + 1..]
  }

  /**
   * The same shape said differently: exactly one `@`, something before it,
   * and after it a domain holding a `.` that is neither its first nor its
   * last character.
   */
  predicate EmailShape(v: string) {
    && multiset(v)['@'] == 1
    && exists at | 0 < at < |v| :: v[at] == '@' && DottedAfter(v, at)
  }

  /** Some `.` lies strictly inside the part of `v` after position `at`. */
  predicate DottedAfter(v: string, at: nat) {
    exists dot | at + 1 < dot < |v| - 1 :: v[dot] == '.'
  }

  lemma EmailPatternIsEmailShape(v: string)
    ensures EmailPattern(v) <==> EmailShape(v)
  {
    if EmailPattern(v) {
      var at, dot :| 0 < at < dot < |v| - 1 && EmailSplit(v, at, dot);
      SplitHasShape(v, at, dot);
    }
    if EmailShape(v) {
      var at :| 0 < at < |v| && v[at] == '@' && DottedAfter(v, at);
      var dot :| at + 1 < dot < |v| - 1 && v[dot] == '.';
      ShapeHasSplit(v, at, dot);
    }
  }

  lemma SplitHasShape(v: string, at: nat, dot: nat)
    requires 0 < at < dot < |v| - 1 && EmailSplit(v, at, dot)
    ensures EmailShape(v)
  {
    var a, b, c := v[..at], v[at + 1..dot], v[dot + 1..];
    assert v == a + [v[at]] + b + [v[dot]] + c;
    assert multiset(v)['@'] == multiset(a)['@'] + 1 + multiset(b)['@'] + multiset(c)['@'];
    assert DottedAfter(v, at);
  }

  lemma ShapeHasSplit(v: string, at: nat, dot: nat)
    requires multiset(v)['@'] == 1
    requires 0 < at && at + 1 < dot < |v| - 1 && v[at] == '@' && v[dot] == '.'
    ensures EmailPattern(v)
  {
    var a, rest := v[..at], v[at + 1..];
    assert v == a + [v[at]] + rest;
    assert multiset(v)['@'] == multiset(a)['@'] + 1 + multiset(rest)['@'];
    assert '@' !in rest;
    assert rest == v[at + 1..dot] + [v[dot]] + v[dot + 1..];
    assert EmailSplit(v, at, dot);
  }

  // ---------- phone: /^\d{8,}$/ ----------

  predicate PhonePattern(v: string) {
    |v| >= 8 && AllDigits(v)
  }

  // ---------- days: isNaN(value) || value < 1 ----------

  /**
   * What `Number` accepts here: digits, optionally followed by a `.` and
   * more digits, with at least one digit in all.
   */
  predicate IsDecimalNumber(v: string) {
    var k := DigitRun(v);
    || (k == |v| && k > 0)
    || (k < |v| && v[k] == '.' && AllDigits(v[k + 1..]) && (k > 0 || k + 1 < |v|))
  }

  /** The integer part of such a number; the number is below 1 exactly when this is 0. */
  function WholePart(v: string): nat {
    DigitsValue(v[..DigitRun(v)])
  }

  predicate DaysPass(v: string) {
    IsDecimalNumber(v) && WholePart(v) >= 1
  }

  /** The days rule accepts a decimal number whose integer part has a non-zero digit. */
  lemma DaysPassIff(v: string)
    ensures DaysPass(v) <==>
      IsDecimalNumber(v) && exists i :: 0 <= i < DigitRun(v) && v[i] != '0'
  {
    var k := DigitRun(v);
    DigitsValuePositive(v[..k]);
    if exists i :: 0 <= i < k && v[i] != '0' {
      var i :| 0 <= i < k && v[i] != '0';
      assert v[..k][i] == v[i];
    }
  }

  /** `parseInt(raw, 10)` on the untrimmed value: leading whitespace, then a run of digits. */
  function ParseInt(raw: string): (r: Option<nat>)
    ensures r.Some? <==> TrimStart(raw) != [] && IsDigit(TrimStart(raw)[0])
  {
    var t := TrimStart(raw);
    var k := DigitRun(t);
    if k == 0 then None else Some(DigitsValue(t[..k]))
  }

  /** On a value the days rule accepts, `parseInt` yields the integer part (it truncates). */
  lemma ParseIntIsWholePart(raw: string)
    requires DaysPass(Trim(raw))
    ensures ParseInt(raw) == Some(WholePart(Trim(raw)))
  {
    var t := TrimStart(raw);
    var v := Trim(raw);
    var k := DigitRun(v);
    TrimEndIsPrefix(t);
    var w := t[|v|..];
    assert t == v + w;
    if k < |v| {
      DigitRunStopsInPrefix(v, w);
    } else {
      assert w == [] || IsWhitespace(w[0]);
      DigitRunOfDigits(v, w);
    }
    assert t[..k] == v[..k];
  }

  // ---------- the rule chain ----------

  /**
   * The feedback for one input: the first rule that fails on the trimmed
   * value, among required, then the rule for that input's name.
   */
  function Check(input: Input): (r: Feedback)
    ensures r == Required <==> Blank(input.value)
    ensures r == InvalidEmail ==> input.name == Email
    ensures r == InvalidPhone ==> input.name == Phone
    ensures r == InvalidLicense ==> input.name == License
    ensures r == InvalidDays ==> input.name == Days
  {
    var v := Trim(input.value);
    if v == [] then Required
    else if input.name == Email && !EmailPattern(v) then InvalidEmail
    else if input.name == Phone && !PhonePattern(v) then InvalidPhone
    else if input.name == License && |v| < 5 then InvalidLicense
    else if input.name == Days && !DaysPass(v) then InvalidDays
    else NoFeedback
  }

  /** No input carries feedback. */
  predicate AllClear(feedback: seq<Feedback>) {
    forall k :: 0 <= k < |feedback| ==> feedback[k] == NoFeedback
  }

  lemma AllClearAppend(feedback: seq<Feedback>, f: Feedback)
    ensures AllClear(feedback + [f]) <==> AllClear(feedback) && f == NoFeedback
  {
    assert forall k :: 0 <= k < |feedback| ==> (feedback + [f])[k] == feedback[k];
    assert (feedback + [f])[|feedback|] == f;
  }

  /** The feedback shown next to each input of a form holding `d`. */
  function FormFeedback(d: Draft): seq<Feedback> {
    seq(|Inputs(d)|, i requires 0 <= i < |Inputs(d)| => Check(Inputs(d)[i]))
  }

  /** The form is valid when no input has feedback. */
  predicate FormValid(d: Draft) {
    AllClear(FormFeedback(d))
  }

  /**
   * `validateReservationForm`: visits every input, records its feedback and
   * clears the result flag whenever some feedback is set.
   */
  method ValidateReservationForm(inputs: seq<Input>) returns (valid: bool, feedback: seq<Feedback>)
    ensures |feedback| == |inputs|
    ensures forall i :: 0 <= i < |inputs| ==> feedback[i] == Check(inputs[i])
    ensures valid <==> AllClear(feedback)
  {
    valid := true;
    feedback := [];
    var i := 0;
    while i < |inputs|
      invariant 0 <= i <= |inputs|
      invariant |feedback| == i
      invariant forall k :: 0 <= k < i ==> feedback[k] == Check(inputs[k])
      invariant valid <==> AllClear(feedback)
    {
      var f := Check(inputs[i]);
      AllClearAppend(feedback, f);
      if f != NoFeedback {
        valid := false;
      }
      feedback := feedback + [f];
      i := i + 1;
    }
  }

  /** Run on the form's own inputs, the validator reports exactly `FormFeedback` and `FormValid`. */
  lemma ValidatorOnForm(d: Draft, valid: bool, feedback: seq<Feedback>)
    requires |feedback| == |Inputs(d)|
    requires forall i :: 0 <= i < |Inputs(d)| ==> feedback[i] == Check(Inputs(d)[i])
    requires valid <==> AllClear(feedback)
    ensures feedback == FormFeedback(d) && (valid <==> FormValid(d))
  {
  }

  /** Name and start date only need a non-empty trimmed value. */
  lemma NameOrDateRule(n: FieldName, v: string)
    requires n == Name || n == StartDate
    ensures Check(Input(n, v)) == if Trim(v) == [] then Required else NoFeedback
  {
  }

  /** Email: required, then the one-`@`, dotted-domain shape. */
  lemma EmailRule(v: string)
    ensures Check(Input(Email, v))
         == if Trim(v) == [] then Required
            else if !EmailShape(Trim(v)) then InvalidEmail
            else NoFeedback
  {
    EmailPatternIsEmailShape(Trim(v));
  }

  /** Phone: required, then at least eight ASCII digits. */
  lemma PhoneRule(v: string)
    ensures Check(Input(Phone, v))
         == if Trim(v) == [] then Required
            else if !(|Trim(v)| >= 8 && AllDigits(Trim(v))) then InvalidPhone
            else NoFeedback
  {
  }

  /** License: required, then at least five characters. */
  lemma LicenseRule(v: string)
    ensures Check(Input(License, v))
         == if Trim(v) == [] then Required
            else if |Trim(v)| < 5 then InvalidLicense
            else NoFeedback
  {
  }

  /** Days: required, then a number of at least 1. */
  lemma DaysRule(v: string)
    ensures Check(Input(Days, v))
         == if Trim(v) == [] then Required
            else if !DaysPass(Trim(v)) then InvalidDays
            else NoFeedback
  {
  }

  /** A six-entry feedback list is clear when each of its entries is. */
  lemma AllClearSix(fb: seq<Feedback>)
    requires |fb| == 6
    ensures AllClear(fb) <==>
      fb[0] == NoFeedback && fb[1] == NoFeedback && fb[2] == NoFeedback &&
      fb[3] == NoFeedback && fb[4] == NoFeedback && fb[5] == NoFeedback
  {
  }

  /** The form is valid exactly when each of its six inputs, taken alone, has no feedback. */
  lemma FormValidByInput(d: Draft)
    ensures FormValid(d) <==>
      && Check(Input(Name, d.name)) == NoFeedback && Check(Input(Phone, d.phone)) == NoFeedback
      && Check(Input(Email, d.email)) == NoFeedback && Check(Input(License, d.license)) == NoFeedback
      && Check(Input(StartDate, d.startDate)) == NoFeedback && Check(Input(Days, d.days)) == NoFeedback
  {
    var fb := FormFeedback(d);
    AllClearSix(fb);
    assert fb[0] == Check(Input(Name, d.name));
    assert fb[1] == Check(Input(Phone, d.phone));
    assert fb[2] == Check(Input(Email, d.email));
    assert fb[3] == Check(Input(License, d.license));
    assert fb[4] == Check(Input(StartDate, d.startDate));
    assert fb[5] == Check(Input(Days, d.days));
  }

  /**
   * The form is valid exactly when every trimmed field is non-empty, the
   * email has one `@` with a non-empty local part and a dotted domain, the
   * phone is at least eight ASCII digits, the license has at least five
   * characters and the day count is a number of at least 1.
   */
  lemma FormValidIff(d: Draft)
    ensures FormValid(d) <==>
      && Trim(d.name) != [] && Trim(d.startDate) != []
      && EmailShape(Trim(d.email))
      && |Trim(d.phone)| >= 8 && AllDigits(Trim(d.phone))
      && |Trim(d.license)| >= 5
      && IsDecimalNumber(Trim(d.days)) && WholePart(Trim(d.days)) >= 1
  {
    FormValidByInput(d);
    NameOrDateRule(Name, d.name);
    NameOrDateRule(StartDate, d.startDate);
    EmailRule(d.email);
    PhoneRule(d.phone);
    LicenseRule(d.license);
    DaysRule(d.days);
    assert DaysPass(Trim(d.days)) ==> Trim(d.days) != [];
  }

  // ---------- total price and submit button ----------

  /** What `updateTotalAndButton` leaves on the page. */
  datatype Pricing = Pricing(total: Option<int>, submitEnabled: bool)

  /**
   * What `updateTotalAndButton` computes: when the form is valid, the total
   * `parseInt(days) * price_per_day` is shown and submit is enabled;
   * otherwise the total is cleared and submit is disabled.
   */
  function PricingOf(d: Draft, pricePerDay: int): (p: Pricing)
    ensures p.submitEnabled <==> FormValid(d)
    ensures p.total.Some? <==> p.submitEnabled
    ensures p.submitEnabled ==> p.total == Some(WholePart(Trim(d.days)) * pricePerDay)
  {
    if FormValid(d) then
      assert FormFeedback(d)[5] == NoFeedback;
      DaysRule(d.days);
      ParseIntIsWholePart(d.days);
      Pricing(Some(ParseInt(d.days).value * pricePerDay), true)
    else
      Pricing(None, false)
  }

  /** A fractional day count passes the days rule, and the total charges only its integer part. */
  lemma FractionalDaysAreTruncated()
    ensures Check(Input(Days, "2.5")) == NoFeedback
    ensures ParseInt("2.5") == Some(2)
  {
    assert DigitRun("2.5") == 1 by {
      assert "2.5"[1..] == ".5";
    }
    assert "2.5"[..1] == "2";
    assert "2.5"[2..] == "5";
    assert "2"[..0] == [];
    assert Trim("2.5") == "2.5";
  }
}
