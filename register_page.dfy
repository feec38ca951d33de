/** The registration page's own rules (app/register/page.tsx): the password
    strength score and the meter drawn from it, the submit button's enabled
    state, the form's change handler and the request body it posts. */
module RegisterPage {
  import opened Common
  import ApiRegister

  // ---------------------------------------------------------------------
  // Password strength
  // ---------------------------------------------------------------------

  /** The character classes the strength regexes test for:
      `/[A-Z]/`, `/[0-9]/` and `/[^A-Za-z0-9]/`. */
  datatype CharClass = UpperLetter | DecimalDigit | NonAlphanumeric

  predicate InClass(c: char, cls: CharClass)
  {
    match cls
    case UpperLetter => IsUpper(c)
    case DecimalDigit => IsDigit(c)
    case NonAlphanumeric => !IsUpper(c) && !IsLower(c) && !IsDigit(c)
  }

  /** `regex.test(password)` for a one-character class: some character of the
      password belongs to the class. */
  predicate Matches(password: string, cls: CharClass)
    decreases |password|
  {
    |password| > 0 && (InClass(password[0], cls) || Matches(password[1..], cls))
  }

  lemma {:induction false} MatchesIff(password: string, cls: CharClass)
    ensures Matches(password, cls) <==> exists i :: 0 <= i < |password| && InClass(password[i], cls)
    decreases |password|
  {
    if |password| > 0 {
      MatchesIff(password[1..], cls);
      if exists i :: 0 <= i < |password| && InClass(password[i], cls) {
        var i :| 0 <= i < |password| && InClass(password[i], cls);
        if i > 0 { assert password[1..][i - 1] == password[i]; }
      }
      if Matches(password[1..], cls) && !InClass(password[0], cls) {
        var i :| 0 <= i < |password[1..]| && InClass(password[1..][i], cls);
        assert password[i + 1] == password[1..][i];
      }
    }
  }

  function Point(b: bool): nat { if b then 1 else 0 }

  /** The strength score: one point each for length at least 8, an upper-case
      letter, a digit, and a character that is neither letter nor digit. */
  function Strength(password: string): (n: nat)
    ensures n <= 4
    ensures password == "" ==> n == 0
  {
    Point(|password| >= 8) + Point(Matches(password, UpperLetter))
    + Point(Matches(password, DecimalDigit)) + Point(Matches(password, NonAlphanumeric))
  }

  /** `passwordStrength`: the page's step-by-step counter. */
  method PasswordStrength(password: string) returns (strength: nat)
    ensures strength == Strength(password)
    ensures strength <= 4
  {
    strength := 0;
    if |password| >= 8 { strength := strength + 1; }
    if Matches(password, UpperLetter) { strength := strength + 1; }
    if Matches(password, DecimalDigit) { strength := strength + 1; }
    if Matches(password, NonAlphanumeric) { strength := strength + 1; }
  }

  lemma MatchesExtend(p: string, q: string, cls: CharClass)
    requires Matches(p, cls)
    ensures Matches(p + q, cls)
  {
    MatchesIff(p, cls);
    MatchesIff(p + q, cls);
    var i :| 0 <= i < |p| && InClass(p[i], cls);
    assert (p + q)[i] == p[i];
  }

  /** Typing more characters never weakens the password. */
  lemma StrengthMonotone(p: string, q: string)
    ensures Strength(p) <= Strength(p + q)
  {
    if Matches(p, UpperLetter) { MatchesExtend(p, q, UpperLetter); }
    if Matches(p, DecimalDigit) { MatchesExtend(p, q, DecimalDigit); }
    if Matches(p, NonAlphanumeric) { MatchesExtend(p, q, NonAlphanumeric); }
  }

  /** Example: a long lower-case word gets the length point only. */
  lemma LowerCaseExample()
    ensures Strength("password") == 1
  {
    assert !Matches("password", UpperLetter) by { MatchesIff("password", UpperLetter); }
    assert !Matches("password", DecimalDigit) by { MatchesIff("password", DecimalDigit); }
    assert !Matches("password", NonAlphanumeric) by { MatchesIff("password", NonAlphanumeric); }
  }

  /** Example: an upper-case letter, a digit and a symbol in a long word earn
      all four points. */
  lemma StrengthExamples()
    ensures Strength("Passw0rd!") == 4
  {
    assert Matches("Passw0rd!", UpperLetter);
    assert Matches("Passw0rd!"[1..][1..][1..][1..][1..], DecimalDigit);
    assert Matches("Passw0rd!"[8..], NonAlphanumeric);
  }

  /** Example: a short password earns one point per class it touches. */
  lemma ShortStrengthExamples()
    ensures Strength("A") == 1
    ensures Strength("1") == 1
    ensures Strength("#") == 1
    ensures Strength("abc") == 0
  {
    assert !Matches("abc", UpperLetter) by { MatchesIff("abc", UpperLetter); }
    assert !Matches("abc", DecimalDigit) by { MatchesIff("abc", DecimalDigit); }
    assert !Matches("abc", NonAlphanumeric) by { MatchesIff("abc", NonAlphanumeric); }
  }

  // ---------------------------------------------------------------------
  // The strength meter
  // ---------------------------------------------------------------------

  /** The caption under the meter. */
  function StrengthLabel(strength: int): (caption: string)
    ensures caption == "Weak" || caption == "Good" || caption == "Strong"
  {
    if strength <= 2 then "Weak" else if strength == 3 then "Good" else "Strong"
  }

  datatype BarColour = Red | Yellow | Green | Gray

  /** The colour of bar i of the four-bar meter: gray unless i is below the
      score, and then the colour of the caption shown under the meter. */
  function Bar(i: int, strength: int): (c: BarColour)
    ensures c == Gray <==> i >= strength
    ensures i < strength ==> c == LabelColour(StrengthLabel(strength))
  {
    if i < strength then
      if strength <= 2 then Red else if strength == 3 then Yellow else Green
    else Gray
  }

  /** The colour that goes with each caption. */
  function LabelColour(caption: string): BarColour
  {
    if caption == "Weak" then Red else if caption == "Good" then Yellow else Green
  }

  /** For every password the meter and its caption agree: exactly the first
      `strength` bars are filled, all in the caption's colour. */
  lemma MeterAgreesWithLabel(password: string)
    ensures var s := Strength(password);
      (forall i :: 0 <= i < 4 ==> (Bar(i, s) != Gray <==> i < s)) &&
      (forall i :: 0 <= i < s ==> Bar(i, s) == LabelColour(StrengthLabel(s))) &&
      (StrengthLabel(s) == "Weak" <==> s <= 2) &&
      (StrengthLabel(s) == "Good" <==> s == 3) &&
      (StrengthLabel(s) == "Strong" <==> s == 4)
  {
  }

  // ---------------------------------------------------------------------
  // The form state and its change handler
  // ---------------------------------------------------------------------

  datatype FormData = FormData(
    firstName: string, lastName: string, email: string,
    password: string, confirmPassword: string, agreeToTerms: bool)

  /** The initial `formData`. */
  const EmptyForm := FormData("", "", "", "", "", false)

  /** The `name` attributes of the form's inputs. */
  const InputNames: set<string> := {"firstName", "lastName", "email", "password", "confirmPassword", "agreeToTerms"}

  /** What an input holds: the text of a text input, or a checkbox's state. */
  datatype FieldValue = Text(text: string) | Checked(on: bool)

  /** `formData[name]`. */
  function Get(f: FormData, name: string): FieldValue
    requires name in InputNames
  {
    match name
    case "firstName" => Text(f.firstName)
    case "lastName" => Text(f.lastName)
    case "email" => Text(f.email)
    case "password" => Text(f.password)
    case "confirmPassword" => Text(f.confirmPassword)
    case _ => Checked(f.agreeToTerms)
  }

  /** The inputs as the page wires them: the checkbox is `agreeToTerms`, all
      the others are text inputs. */
  predicate WiredInput(name: string, inputType: string)
  {
    name in InputNames && ((name == "agreeToTerms") <==> (inputType == "checkbox"))
  }

  /** `{ ...formData, [name]: type === "checkbox" ? checked : value }`. */
  function WithInput(f: FormData, name: string, inputType: string, checked: bool, value: string): (r: FormData)
    requires WiredInput(name, inputType)
    ensures Get(r, name) == if inputType == "checkbox" then Checked(checked) else Text(value)
    ensures forall n :: n in InputNames && n != name ==> Get(r, n) == Get(f, n)
  {
    match name
    case "firstName" => f.(firstName := value)
    case "lastName" => f.(lastName := value)
    case "email" => f.(email := value)
    case "password" => f.(password := value)
    case "confirmPassword" => f.(confirmPassword := value)
    case _ => f.(agreeToTerms := checked)
  }

  /** `disabled={isLoading || password !== confirmPassword || !agreeToTerms}`. */
  function SubmitDisabled(isLoading: bool, f: FormData): (disabled: bool)
    ensures !disabled <==> !isLoading && f.password == f.confirmPassword && f.agreeToTerms
  {
    isLoading || f.password != f.confirmPassword || !f.agreeToTerms
  }

  /** The button does not look at the strength: a password worth nothing can
      be submitted once it is confirmed and the terms are accepted. */
  lemma WeakPasswordCanBeSubmitted()
    ensures var f := FormData("Ada", "Lovelace", "ada@example.com", "abc", "abc", true);
      !SubmitDisabled(false, f) && Strength(f.password) == 0
  {
    assert !Matches("abc", UpperLetter) by { MatchesIff("abc", UpperLetter); }
    assert !Matches("abc", DecimalDigit) by { MatchesIff("abc", DecimalDigit); }
    assert !Matches("abc", NonAlphanumeric) by { MatchesIff("abc", NonAlphanumeric); }
  }

  /** The JSON body `handleSubmit` posts to /api/register. */
  datatype RegisterRequest = RegisterRequest(name: string, email: string, password: string)

  /** The request carries the two name parts joined by one space, and the
      email and password as typed; the confirmation and the terms flag are
      not sent. */
  function RequestFor(f: FormData): (r: RegisterRequest)
    ensures r.email == f.email && r.password == f.password
    ensures |r.name| == |f.firstName| + 1 + |f.lastName|
    ensures r.name[..|f.firstName|] == f.firstName && r.name[|f.firstName|] == ' '
    ensures r.name[|f.firstName| + 1..] == f.lastName
  {
    RegisterRequest(f.firstName + " " + f.lastName, f.email, f.password)
  }

  /** The body as /api/register parses it: every property present. */
  function BodySent(f: FormData): (b: ApiRegister.RegisterBody)
    ensures b.name == Some(RequestFor(f).name) && b.email == Some(f.email) && b.password == Some(f.password)
  {
    var r := RequestFor(f);
    ApiRegister.RegisterBody(Some(r.name), Some(r.email), Some(r.password))
  }

  /** The page enables the button for any confirmed password, but the server
      refuses one shorter than eight characters, whatever its strength, and
      stores nothing. */
  lemma ShortPasswordRefusedByServer(f: FormData, rule: ApiRegister.DuplicateRule, users: seq<ApiRegister.UserRow>,
                                     dbUp: bool, hash: string -> string)
    requires !SubmitDisabled(false, f)
    requires f.email != "" && 0 < |f.password| < 8
    ensures var o := ApiRegister.Register(rule, users, Some(BodySent(f)), dbUp, hash);
      o.response == Response(400, ApiRegister.Message(false, "Password must be at least 8 characters")) &&
      o.users == users
  {
    assert RequestFor(f).name != "" by { assert |RequestFor(f).name| >= 1; }
  }

  /** Splits a name at its first space. */
  function SplitAtSpace(name: string): (string, string)
    decreases |name|
  {
    if name == [] then ("", "")
    else if name[0] == ' ' then ("", name[1..])
    else var (first, rest) := SplitAtSpace(name[1..]); ([name[0]] + first, rest)
  }

  /** A first name without a space can be read back from the joined name,
      together with the last name. */
  lemma {:induction false} NameRoundTrip(first: string, last: string)
    requires ' ' !in first
    ensures SplitAtSpace(first + " " + last) == (first, last)
    decreases |first|
  {
    if first == [] {
      assert first + " " + last == [' '] + last;
    } else {
      assert (first + " " + last)[1..] == first[1..] + " " + last;
      NameRoundTrip(first[1..], last);
      assert [first[0]] + first[1..] == first;
    }
  }

  /** The component's state that the change handler and the submit button use. */
  class RegisterState {
    var formData: FormData
    var isLoading: bool

    constructor ()
      ensures formData == EmptyForm && !isLoading
    {
      formData := EmptyForm;
      isLoading := false;
    }

    /** `handleInputChange`: exactly the named field takes the input's new
        value; a checkbox contributes its `checked` state. */
    method HandleInputChange(name: string, inputType: string, checked: bool, value: string)
      requires WiredInput(name, inputType)
      modifies this`formData
      ensures formData == WithInput(old(formData), name, inputType, checked, value)
      ensures Get(formData, name) == if inputType == "checkbox" then Checked(checked) else Text(value)
      ensures forall n :: n in InputNames && n != name ==> Get(formData, n) == Get(old(formData), n)
    {
      formData := WithInput(formData, name, inputType, checked, value);
    }

    /** Whether the submit button is disabled right now. */
    function IsSubmitDisabled(): (disabled: bool)
      reads this
      ensures !disabled <==> !isLoading && formData.password == formData.confirmPassword && formData.agreeToTerms
    {
      SubmitDisabled(isLoading, formData)
    }
  }
}
