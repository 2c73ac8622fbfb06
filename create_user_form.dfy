/**
 * The create-user form (client/src/Pages/Users/CreateEmployee.jsx): the zod
 * schema that validates the fields, the two regular expressions it uses, and
 * the submit handler that picks the create action by role.
 *
 * Strings are sequences of Unicode scalar values; JavaScript measures them in
 * UTF-16 code units, which `Utf16Length` accounts for. The regular
 * expressions carry no `u` flag, so they also see code units; the model
 * states them over scalar values, which gives the same verdicts because
 * every character class involved is ASCII (a surrogate is in none of them)
 * and `.` accepts a surrogate just as it accepts any non-terminator.
 */
module CreateUserForm {
  import opened Wrappers

  // ---------------------------------------------------------------------------
  // Lengths as zod's `.min(n)` measures them

  /** The JavaScript `length` of a string: characters above U+FFFF count twice. */
  function Utf16Length(s: string): (n: nat)
    ensures |s| <= n <= 2 * |s|
  {
    if s == [] then 0
    else (if s[0] as int > 0xFFFF then 2 else 1) + Utf16Length(s[1..])
  }

  /** For text in the Basic Multilingual Plane, `length` is the number of characters. */
  lemma {:induction false} Utf16LengthOfBmp(s: string)
    requires forall i :: 0 <= i < |s| ==> s[i] as int <= 0xFFFF
    ensures Utf16Length(s) == |s|
  {
    if s != [] {
      Utf16LengthOfBmp(s[1..]);
    }
  }

  /** `.min(n)` */
  predicate MinLength(s: string, n: nat)
  {
    Utf16Length(s) >= n
  }

  // ---------------------------------------------------------------------------
  // The character classes of the two patterns

  datatype CharClass =
    | Lower          // [a-z]
    | Upper          // [A-Z]
    | Digit          // \d, which without the u flag is [0-9] only
    | Special        // [@$!%*?&]
    | PasswordChar   // [A-Za-z\d@$!%*?&]

  predicate InClass(c: char, k: CharClass)
  {
    match k
    case Lower => 'a' <= c <= 'z'
    case Upper => 'A' <= c <= 'Z'
    case Digit => '0' <= c <= '9'
    case Special => c in "@$!%*?&"
    case PasswordChar => 'a' <= c <= 'z' || 'A' <= c <= 'Z' || '0' <= c <= '9' || c in "@$!%*?&"
  }

  /** The characters that `.` does not match. */
  predicate IsLineTerminator(c: char)
  {
    c == '\n' || c == '\r' || c == '\U{2028}' || c == '\U{2029}'
  }

  // ---------------------------------------------------------------------------
  // The regular-expression constructs the patterns use

  /** `^(?=.*[k])`: past a run of non-terminators, a character of class `k`. */
  predicate LookaheadFinds(s: string, k: CharClass)
  {
    exists i :: 0 <= i < |s| && InClass(s[i], k) && forall j :: 0 <= j < i ==> !IsLineTerminator(s[j])
  }

  /** `^[k]{lo,hi}$` (with `hi` None for `{lo,}`): the whole string, one class repeated. */
  predicate Repeats(s: string, k: CharClass, lo: nat, hi: Option<nat>)
    decreases |s|
  {
    if s == [] then lo == 0
    else
      && InClass(s[0], k)
      && (hi.None? || hi.value > 0)
      && Repeats(s[1..], k, if lo == 0 then 0 else lo - 1, if hi.None? then None else Some(hi.value - 1))
  }

  /** Every character of `s` is in class `k`. */
  predicate AllIn(s: string, k: CharClass)
  {
    forall i :: 0 <= i < |s| ==> InClass(s[i], k)
  }

  /** Some character of `s` is in class `k`. */
  predicate Contains(s: string, k: CharClass)
  {
    exists i :: 0 <= i < |s| && InClass(s[i], k)
  }

  /** A counted repetition accepts exactly the strings of an allowed length made of that class. */
  lemma {:induction false} RepeatsIff(s: string, k: CharClass, lo: nat, hi: Option<nat>)
    ensures Repeats(s, k, lo, hi) <==> lo <= |s| && (hi.None? || |s| <= hi.value) && AllIn(s, k)
    decreases |s|
  {
    if s != [] && (hi.None? || hi.value > 0) {
      var lo' := if lo == 0 then 0 else lo - 1;
      var hi' := if hi.None? then None else Some(hi.value - 1);
      RepeatsIff(s[1..], k, lo', hi');
      assert AllIn(s, k) <==> InClass(s[0], k) && AllIn(s[1..], k) by {
        if InClass(s[0], k) && AllIn(s[1..], k) {
          forall i | 0 <= i < |s|
            ensures InClass(s[i], k)
          {
            if i > 0 {
              assert s[i] == s[1..][i - 1];
            }
          }
        }
      }
    }
  }

  // ---------------------------------------------------------------------------
  // The two patterns

  /** /^(?=.*[a-z])(?=.*[A-Z])(?=.*\d)(?=.*[@$!%*?&])[A-Za-z\d@$!%*?&]{8,}$/ */
  predicate PasswordPattern(s: string)
  {
    && LookaheadFinds(s, Lower)
    && LookaheadFinds(s, Upper)
    && LookaheadFinds(s, Digit)
    && LookaheadFinds(s, Special)
    && Repeats(s, PasswordChar, 8, None)
  }

  /** The password rule in words: at least 8 characters from the alphabet, with one of each kind. */
  predicate PasswordRule(s: string)
  {
    && |s| >= 8
    && AllIn(s, PasswordChar)
    && Contains(s, Lower)
    && Contains(s, Upper)
    && Contains(s, Digit)
    && Contains(s, Special)
  }

  /** No line terminator is a password character, so `.*` in a lookahead never stops early. */
  lemma LookaheadInAlphabet(s: string, k: CharClass)
    requires AllIn(s, PasswordChar)
    ensures LookaheadFinds(s, k) <==> Contains(s, k)
  {
  }

  lemma PasswordPatternIff(s: string)
    ensures PasswordPattern(s) <==> PasswordRule(s)
  {
    RepeatsIff(s, PasswordChar, 8, None);
    if AllIn(s, PasswordChar) {
      LookaheadInAlphabet(s, Lower);
      LookaheadInAlphabet(s, Upper);
      LookaheadInAlphabet(s, Digit);
      LookaheadInAlphabet(s, Special);
    }
  }

  /** The `.min(8)` before the pattern never rejects a password the pattern accepts. */
  lemma PasswordMinLengthRedundant(s: string)
    requires PasswordPattern(s)
    ensures MinLength(s, 8)
  {
    RepeatsIff(s, PasswordChar, 8, None);
  }

  /** /^\d{10,11}$/ */
  predicate PhonePattern(s: string)
  {
    Repeats(s, Digit, 10, Some(11))
  }

  /** A phone is 10 or 11 ASCII digits, with no sign, space or separator. */
  lemma PhonePatternIff(s: string)
    ensures PhonePattern(s) <==> (|s| == 10 || |s| == 11) && AllIn(s, Digit)
  {
    RepeatsIff(s, Digit, 10, Some(11));
  }

  lemma PasswordAccepted()
    ensures PasswordPattern("Passw0rd!")
  {
    var s := "Passw0rd!";
    assert InClass(s[0], Upper) && InClass(s[1], Lower) && InClass(s[5], Digit) && InClass(s[8], Special);
    assert AllIn(s, PasswordChar);
    PasswordPatternIff(s);
  }

  /** `#` and space are outside the alphabet, and four characters are too few. */
  lemma PasswordsRejected()
    ensures !PasswordPattern("Passw0rd#")
    ensures !PasswordPattern("Pass w0rd!")
    ensures !PasswordPattern("Pa0!")
  {
    PasswordPatternIff("Passw0rd#");
    assert !InClass("Passw0rd#"[8], PasswordChar);
    PasswordPatternIff("Pass w0rd!");
    assert !InClass("Pass w0rd!"[4], PasswordChar);
    PasswordPatternIff("Pa0!");
  }

  lemma PhoneAccepted()
    ensures PhonePattern("5551234567")
  {
    assert AllIn("5551234567", Digit);
    PhonePatternIff("5551234567");
  }

  /** A leading sign or separators make a phone invalid. */
  lemma PhonesRejected()
    ensures !PhonePattern("+5551234567")
    ensures !PhonePattern("555-123-4567")
  {
    PhonePatternIff("+5551234567");
    assert !InClass("+5551234567"[0], Digit);
    PhonePatternIff("555-123-4567");
  }

  // ---------------------------------------------------------------------------
  // createUserSchema

  /** The form values as submitted; `email` is None when the field is undefined. */
  datatype FormData = FormData(
    firstName: string,
    lastName: string,
    username: string,
    password: string,
    phone: string,
    email: Option<string>)

  /** The checks of the schema that can fail, in schema order. */
  datatype Issue =
    | FirstNameTooShort
    | LastNameTooShort
    | UsernameTooShort
    | PasswordTooShort
    | PasswordTooWeak
    | PhoneFormat
    | EmailFormat

  /** The message the schema attaches to each check. */
  function Message(issue: Issue): string
  {
    match issue
    case FirstNameTooShort => "First name must be at least 2 characters long"
    case LastNameTooShort => "Last name must be at least 2 characters long"
    case UsernameTooShort => "Username must be at least 2 characters long"
    case PasswordTooShort => "Password must be at least 8 characters long"
    case PasswordTooWeak =>
      "Password must contain at least one uppercase letter, one lowercase letter, one number, and one special character"
    case PhoneFormat => "Invalid phone number format"
    case EmailFormat => "Invalid email address"
  }

  /** The length of each message, in characters. */
  lemma MessageLength(issue: Issue)
    ensures |Message(issue)| == match issue
      case FirstNameTooShort => 45
      case LastNameTooShort => 44
      case UsernameTooShort => 43
      case PasswordTooShort => 43
      case PasswordTooWeak => 112
      case PhoneFormat => 27
      case EmailFormat => 21
  {
    match issue
    case FirstNameTooShort =>
    case LastNameTooShort =>
    case UsernameTooShort =>
    case PasswordTooShort =>
    case PasswordTooWeak =>
    case PhoneFormat =>
    case EmailFormat =>
  }

  /** The two minimum-length messages of equal length differ in the minimum they name. */
  lemma MinimumNamed()
    ensures Message(UsernameTooShort)[26] == '2' && Message(PasswordTooShort)[26] == '8'
  {
  }

  /** Each failing check shows its own message, so the form tells which rule a value broke. */
  lemma MessagesDistinct(a: Issue, b: Issue)
    requires a != b
    ensures Message(a) != Message(b)
  {
    MessageLength(a);
    MessageLength(b);
    if {a, b} == {UsernameTooShort, PasswordTooShort} {
      MinimumNamed();
    }
  }

  /** `.email(...).or(z.literal("")).optional()`; the format check itself is `isEmail`. */
  predicate EmailAccepted(email: Option<string>, isEmail: string -> bool)
  {
    email.None? || isEmail(email.value) || email.value == ""
  }

  /** The issue of one check: none when it passes. */
  function Check(passes: bool, issue: Issue): (r: seq<Issue>)
    ensures forall i :: i in r <==> !passes && i == issue
  {
    if passes then [] else [issue]
  }

  /** The failing length checks of the two names and the username. */
  function NameIssues(f: FormData): (r: seq<Issue>)
    ensures forall i :: i in r ==> i in {FirstNameTooShort, LastNameTooShort, UsernameTooShort}
    ensures FirstNameTooShort in r <==> !MinLength(f.firstName, 2)
    ensures LastNameTooShort in r <==> !MinLength(f.lastName, 2)
    ensures UsernameTooShort in r <==> !MinLength(f.username, 2)
  {
    Check(MinLength(f.firstName, 2), FirstNameTooShort)
    + Check(MinLength(f.lastName, 2), LastNameTooShort)
    + Check(MinLength(f.username, 2), UsernameTooShort)
  }

  /** The failing checks of the password: its minimum length and its pattern. */
  function PasswordIssues(f: FormData): (r: seq<Issue>)
    ensures forall i :: i in r ==> i in {PasswordTooShort, PasswordTooWeak}
    ensures PasswordTooShort in r <==> !MinLength(f.password, 8)
    ensures PasswordTooWeak in r <==> !PasswordPattern(f.password)
  {
    Check(MinLength(f.password, 8), PasswordTooShort)
    + Check(PasswordPattern(f.password), PasswordTooWeak)
  }

  /** The failing format checks of the phone and the email. */
  function ContactIssues(f: FormData, isEmail: string -> bool): (r: seq<Issue>)
    ensures forall i :: i in r ==> i in {PhoneFormat, EmailFormat}
    ensures PhoneFormat in r <==> !PhonePattern(f.phone)
    ensures EmailFormat in r <==> !EmailAccepted(f.email, isEmail)
  {
    Check(PhonePattern(f.phone), PhoneFormat)
    + Check(EmailAccepted(f.email, isEmail), EmailFormat)
  }

  /** Every failing check; zod runs all checks of a string, so one field can fail twice. */
  function Issues(f: FormData, isEmail: string -> bool): (r: seq<Issue>)
    ensures FirstNameTooShort in r <==> !MinLength(f.firstName, 2)
    ensures LastNameTooShort in r <==> !MinLength(f.lastName, 2)
    ensures UsernameTooShort in r <==> !MinLength(f.username, 2)
    ensures PasswordTooShort in r <==> !MinLength(f.password, 8)
    ensures PasswordTooWeak in r <==> !PasswordPattern(f.password)
    ensures PhoneFormat in r <==> !PhonePattern(f.phone)
    ensures EmailFormat in r <==> !EmailAccepted(f.email, isEmail)
    ensures PasswordTooWeak in r <==> !PasswordRule(f.password)
    ensures PhoneFormat in r <==> !((|f.phone| == 10 || |f.phone| == 11) && AllIn(f.phone, Digit))
    ensures PasswordTooShort in r ==> PasswordTooWeak in r
  {
    assert PasswordPattern(f.password) <==> PasswordRule(f.password) by {
      PasswordPatternIff(f.password);
    }
    assert PhonePattern(f.phone) <==> (|f.phone| == 10 || |f.phone| == 11) && AllIn(f.phone, Digit) by {
      PhonePatternIff(f.phone);
    }
    assert PasswordPattern(f.password) ==> MinLength(f.password, 8) by {
      if PasswordPattern(f.password) {
        PasswordMinLengthRedundant(f.password);
      }
    }
    NameIssues(f) + PasswordIssues(f) + ContactIssues(f, isEmail)
  }

  /** The form passes the schema exactly when each field meets its rule, stated without the patterns. */
  lemma FormAcceptedIff(f: FormData, isEmail: string -> bool)
    ensures Issues(f, isEmail) == [] <==>
      && MinLength(f.firstName, 2)
      && MinLength(f.lastName, 2)
      && MinLength(f.username, 2)
      && PasswordRule(f.password)
      && (|f.phone| == 10 || |f.phone| == 11) && AllIn(f.phone, Digit)
      && (f.email.None? || f.email.value == "" || isEmail(f.email.value))
  {
    PasswordPatternIff(f.password);
    PhonePatternIff(f.phone);
    if PasswordPattern(f.password) {
      PasswordMinLengthRedundant(f.password);
    }
  }

  /** An empty and an absent email both pass, whatever the format check says. */
  lemma OptionalEmail(isEmail: string -> bool)
    ensures EmailAccepted(None, isEmail)
    ensures EmailAccepted(Some(""), isEmail)
  {
  }

  /** A name of two ASCII letters passes, and so does a single character outside the BMP. */
  lemma NameLengthExamples()
    ensures MinLength("Al", 2)
    ensures !MinLength("A", 2)
    ensures MinLength("\U{1F600}", 2)
  {
  }

  // ---------------------------------------------------------------------------
  // onSubmit

  /** The Redux actions the form can dispatch. */
  datatype Action = CreateEmployee(data: FormData) | CreateClient(data: FormData)

  /** What a submission does: the actions dispatched in order, and whether the form was reset. */
  datatype Submission = Submission(dispatched: seq<Action>, formReset: bool)

  /** onSubmit: the `role` prop defaults to "employee"; the form is reset whatever the role. */
  function OnSubmit(roleProp: Option<string>, data: FormData): (r: Submission)
    ensures r.formReset
    ensures |r.dispatched| <= 1
    ensures roleProp.None? ==> r.dispatched == [CreateEmployee(data)]
    ensures roleProp == Some("employee") ==> r.dispatched == [CreateEmployee(data)]
    ensures roleProp == Some("client") ==> r.dispatched == [CreateClient(data)]
    ensures roleProp.Some? && roleProp.value != "employee" && roleProp.value != "client" ==> r.dispatched == []
  {
    var role := roleProp.GetOr("employee");
    var first := if role == "employee" then [CreateEmployee(data)] else [];
    var second := if role == "client" then first + [CreateClient(data)] else first;
    Submission(second, true)
  }

  /** handleSubmit(onSubmit): onSubmit runs only on values that pass the schema. */
  function HandleSubmit(roleProp: Option<string>, data: FormData, isEmail: string -> bool): (r: Submission)
    ensures Issues(data, isEmail) != [] ==> r.dispatched == [] && !r.formReset
    ensures Issues(data, isEmail) == [] ==> r == OnSubmit(roleProp, data)
    ensures forall a :: a in r.dispatched ==> a.data == data && Issues(a.data, isEmail) == []
  {
    if Issues(data, isEmail) == [] then OnSubmit(roleProp, data) else Submission([], false)
  }
}
