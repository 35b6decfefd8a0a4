/** The client-side form validator: the email pattern, the per-field checks and the
    lookup of a field's message. */
module Validation {
  import opened Wrappers
  import opened JsStrings

  /** `[^\s@]`: a character allowed inside each part of the email pattern. */
  predicate IsPlain(c: char) {
    c != '@' && !IsSpace(c)
  }

  predicate AllPlain(s: string) {
    forall k :: 0 <= k < |s| ==> IsPlain(s[k])
  }

  /** The strings `^[^\s@]+@[^\s@]+\.[^\s@]+$` matches, read off the pattern: three
      non-empty plain parts separated by an `@` and a literal dot. */
  ghost predicate MatchesEmailPattern(s: string) {
    exists i, j :: 0 < i && i + 1 < j < |s| - 1 && s[i] == '@' && s[j] == '.'
                   && AllPlain(s[..i]) && AllPlain(s[i + 1..j]) && AllPlain(s[j + 1..])
  }

  /** `isValidEmail`: `s` is `L@D` with `L` a non-empty plain local part and `D` a plain
      domain holding a dot with at least one character on each side. */
  function IsValidEmail(s: string): bool {
    var at := IndexOf(s, '@');
    && at > 0
    && AllPlain(s[..at])
    && var d := s[at + 1..];
       && AllPlain(d)
       && |d| >= 3
       && '.' in d[1..|d| - 1]
  }

  /** The computed test accepts exactly the strings the regular expression matches. */
  lemma IsValidEmailMatchesPattern(s: string)
    ensures IsValidEmail(s) <==> MatchesEmailPattern(s)
  {
    if IsValidEmail(s) { ValidEmailMatches(s); }
    if MatchesEmailPattern(s) {
      var i, j :| 0 < i && i + 1 < j < |s| - 1 && s[i] == '@' && s[j] == '.'
                  && AllPlain(s[..i]) && AllPlain(s[i + 1..j]) && AllPlain(s[j + 1..]);
      PatternIsValidEmail(s, i, j);
    }
  }

  /** A valid email holds no white space, so trimming it changes nothing. */
  lemma ValidEmailHasNoSpace(s: string)
    requires IsValidEmail(s)
    ensures NoSpace(s) && Trim(s) == s
  {
    var at := IndexOf(s, '@');
    forall k | 0 <= k < |s| ensures !IsSpace(s[k]) {
      if k < at {
        assert s[k] == s[..at][k];
      } else if k > at {
        assert s[k] == s[at + 1..][k - at - 1];
      }
    }
    TrimNoSpace(s);
  }

  lemma ValidEmailMatches(s: string)
    requires IsValidEmail(s)
    ensures MatchesEmailPattern(s)
  {
    var at := IndexOf(s, '@');
    var d := s[at + 1..];
    var p :| 0 <= p < |d[1..|d| - 1]| && d[1..|d| - 1][p] == '.';
    var j := at + 2 + p;
    assert s[j] == '.';
    assert s[at + 1..j] == d[..p + 1];
    assert s[j + 1..] == d[p + 2..];
    assert AllPlain(s[at + 1..j]) && AllPlain(s[j + 1..]);
  }

  lemma PatternIsValidEmail(s: string, i: int, j: int)
    requires 0 < i && i + 1 < j < |s| - 1 && s[i] == '@' && s[j] == '.'
    requires AllPlain(s[..i]) && AllPlain(s[i + 1..j]) && AllPlain(s[j + 1..])
    ensures IsValidEmail(s)
  {
    assert IndexOf(s, '@') == i by {
      assert '@' !in s[..i] by {
        forall k | 0 <= k < i ensures s[..i][k] != '@' { assert IsPlain(s[..i][k]); }
      }
    }
    var d := s[i + 1..];
    assert AllPlain(d) by {
      forall k | 0 <= k < |d| ensures IsPlain(d[k]) {
        if k < j - i - 1 { assert d[k] == s[i + 1..j][k]; }
        else if k > j - i - 1 { assert d[k] == s[j + 1..][k - (j - i)]; }
      }
    }
    assert d[1..|d| - 1][j - i - 2] == '.';
  }

  /** The examples the repository's tests check. */
  lemma EmailAccepted()
    ensures IsValidEmail("test@example.com")
  {
    PatternIsValidEmail("test@example.com", 4, 12);
  }

  lemma EmailAcceptedDottedLocal()
    ensures IsValidEmail("user.name@domain.co.uk")
  {
    PatternIsValidEmail("user.name@domain.co.uk", 9, 16);
  }

  lemma EmailAcceptedTagged()
    ensures IsValidEmail("test+label@example.org")
  {
    PatternIsValidEmail("test+label@example.org", 10, 18);
  }

  lemma EmailRejectedWithoutAt()
    ensures !IsValidEmail("") && !IsValidEmail("invalid") && !IsValidEmail("test.example.com")
  {
    assert IndexOf("invalid", '@') == -1 by { assert '@' !in "invalid"; }
    assert IndexOf("test.example.com", '@') == -1 by { assert '@' !in "test.example.com"; }
  }

  lemma EmailRejectedMissingPart()
    ensures !IsValidEmail("@example.com") && !IsValidEmail("test@")
  {
    assert IndexOf("test@", '@') == 4 by { assert "test@"[..4] == "test"; }
  }

  lemma EmailRejectedNoDot()
    ensures !IsValidEmail("test@example")
  {
    var s := "test@example";
    assert '.' !in s by {
      forall k | 0 <= k < |s| ensures s[k] != '.' { }
    }
    NeedsDot(s);
  }

  /** Without a dot nothing is a valid email. */
  lemma NeedsDot(s: string)
    requires '.' !in s
    ensures !IsValidEmail(s)
  {
  }
}

/** `validateFormData` and `getFieldError`. */
module FormValidation {
  import opened Wrappers
  import opened JsStrings
  import opened Validation

  datatype FormData = FormData(name: string, email: string, language: string, reason: string)

  datatype ValidationError = ValidationError(field: string, message: string)

  /** The four form fields, in the order the validator checks them. */
  datatype Field = Name | Email | Language | Reason

  function Label(f: Field): string {
    match f
    case Name => "name"
    case Email => "email"
    case Language => "language"
    case Reason => "reason"
  }

  function ValueOf(d: FormData, f: Field): string {
    match f
    case Name => d.name
    case Email => d.email
    case Language => d.language
    case Reason => d.reason
  }

  /** The messages the validator reports. */
  const NameRequired := "Name is required"
  const NameTooShort := "Name must be at least 2 characters"
  const EmailRequired := "Email is required"
  const EmailInvalid := "Please enter a valid email address"
  const LanguageRequired := "Please select a programming language"
  const ReasonRequired := "Please provide a reason for your choice"
  const ReasonTooShort := "Reason must be at least 10 characters"

  /** The error a name draws: required once trimmed, then at least 2 characters. */
  function NameErrors(v: string): seq<ValidationError> {
    if Trim(v) == "" then [ValidationError("name", NameRequired)]
    else if |Trim(v)| < 2 then [ValidationError("name", NameTooShort)]
    else []
  }

  /** The error an email draws: required once trimmed, then the email pattern on the trimmed text. */
  function EmailErrors(v: string): seq<ValidationError> {
    if Trim(v) == "" then [ValidationError("email", EmailRequired)]
    else if !IsValidEmail(Trim(v)) then [ValidationError("email", EmailInvalid)]
    else []
  }

  /** The error a language draws: only the empty string, which is not trimmed first. */
  function LanguageErrors(v: string): seq<ValidationError> {
    if v == "" then [ValidationError("language", LanguageRequired)] else []
  }

  /** The error a reason draws: required once trimmed, then at least 10 characters. */
  function ReasonErrors(v: string): seq<ValidationError> {
    if Trim(v) == "" then [ValidationError("reason", ReasonRequired)]
    else if |Trim(v)| < 10 then [ValidationError("reason", ReasonTooShort)]
    else []
  }

  function ErrorsOf(f: Field, v: string): seq<ValidationError> {
    match f
    case Name => NameErrors(v)
    case Email => EmailErrors(v)
    case Language => LanguageErrors(v)
    case Reason => ReasonErrors(v)
  }

  /** Reference definition of the validator's result: every field's own errors, in field order. */
  function ValidationErrors(d: FormData): seq<ValidationError> {
    NameErrors(d.name) + EmailErrors(d.email) + LanguageErrors(d.language) + ReasonErrors(d.reason)
  }

  /** `validateFormData`: appends at most one error per field, field by field. */
  method ValidateFormData(data: FormData) returns (errors: seq<ValidationError>)
    ensures errors == ValidationErrors(data)
  {
    errors := [];

    var name := Trim(data.name);
    if name == "" {
      errors := errors + [ValidationError("name", NameRequired)];
    } else if |name| < 2 {
      errors := errors + [ValidationError("name", NameTooShort)];
    }
    assert errors == NameErrors(data.name);

    var email := Trim(data.email);
    if email == "" {
      errors := errors + [ValidationError("email", EmailRequired)];
    } else if !IsValidEmail(email) {
      errors := errors + [ValidationError("email", EmailInvalid)];
    }
    assert errors == NameErrors(data.name) + EmailErrors(data.email);

    if data.language == "" {
      errors := errors + [ValidationError("language", LanguageRequired)];
    }
    assert errors == NameErrors(data.name) + EmailErrors(data.email) + LanguageErrors(data.language);

    var reason := Trim(data.reason);
    if reason == "" {
      errors := errors + [ValidationError("reason", ReasonRequired)];
    } else if |reason| < 10 {
      errors := errors + [ValidationError("reason", ReasonTooShort)];
    }
  }

  /** The data is valid exactly when all four field conditions hold. */
  lemma ValidIff(d: FormData)
    ensures ValidationErrors(d) == [] <==>
      && |Trim(d.name)| >= 2
      && IsValidEmail(Trim(d.email))
      && d.language != ""
      && |Trim(d.reason)| >= 10
  {
    if Trim(d.email) == "" { EmailRejectedWithoutAt(); }
  }

  /** Position of a field label in the checking order (4 for any other label). */
  function Rank(field: string): nat {
    if field == "name" then 0
    else if field == "email" then 1
    else if field == "language" then 2
    else if field == "reason" then 3
    else 4
  }

  /** Errors naming only the four fields, each at most once, in the order name, email,
      language, reason. */
  predicate InFieldOrder(r: seq<ValidationError>) {
    && (forall i :: 0 <= i < |r| ==> Rank(r[i].field) < 4)
    && (forall i, j :: 0 <= i < j < |r| ==> Rank(r[i].field) < Rank(r[j].field))
  }

  lemma AppendFieldErrors(a: seq<ValidationError>, b: seq<ValidationError>, k: nat)
    requires k < 4 && InFieldOrder(a) && forall i :: 0 <= i < |a| ==> Rank(a[i].field) < k
    requires |b| <= 1 && forall i :: 0 <= i < |b| ==> Rank(b[i].field) == k
    ensures InFieldOrder(a + b) && forall i :: 0 <= i < |a + b| ==> Rank((a + b)[i].field) <= k
  {
  }

  /** The validator's errors are in field order, so there are at most four. */
  lemma ErrorsInFieldOrder(d: FormData)
    ensures InFieldOrder(ValidationErrors(d)) && |ValidationErrors(d)| <= 4
  {
    var n, e, l, r := NameErrors(d.name), EmailErrors(d.email),
                      LanguageErrors(d.language), ReasonErrors(d.reason);
    AppendFieldErrors([], n, 0);
    assert [] + n == n;
    AppendFieldErrors(n, e, 1);
    AppendFieldErrors(n + e, l, 2);
    AppendFieldErrors(n + e + l, r, 3);
  }

  /** The errors of `errs` about `field`, in order. */
  function ErrorsFor(errs: seq<ValidationError>, field: string): (r: seq<ValidationError>)
    ensures |r| <= |errs|
    ensures forall i :: 0 <= i < |r| ==> r[i].field == field && r[i] in errs
  {
    if errs == [] then []
    else (if errs[0].field == field then [errs[0]] else []) + ErrorsFor(errs[1..], field)
  }

  lemma {:induction false} ErrorsForConcat(a: seq<ValidationError>, b: seq<ValidationError>, field: string)
    ensures ErrorsFor(a + b, field) == ErrorsFor(a, field) + ErrorsFor(b, field)
  {
    if a == [] {
      assert a + b == b;
    } else {
      assert (a + b)[0] == a[0];
      assert (a + b)[1..] == a[1..] + b;
      ErrorsForConcat(a[1..], b, field);
    }
  }

  lemma {:induction false} ErrorsForUniform(errs: seq<ValidationError>, field: string, q: string)
    requires forall i :: 0 <= i < |errs| ==> errs[i].field == field
    ensures ErrorsFor(errs, q) == if field == q then errs else []
  {
    if errs != [] {
      ErrorsForUniform(errs[1..], field, q);
      assert errs == [errs[0]] + errs[1..];
    }
  }

  /** `ErrorsFor` picks one field's part out of four parts of one field each. */
  lemma ErrorsForParts(n: seq<ValidationError>, e: seq<ValidationError>,
                       l: seq<ValidationError>, r: seq<ValidationError>, f: Field)
    requires forall i :: 0 <= i < |n| ==> n[i].field == "name"
    requires forall i :: 0 <= i < |e| ==> e[i].field == "email"
    requires forall i :: 0 <= i < |l| ==> l[i].field == "language"
    requires forall i :: 0 <= i < |r| ==> r[i].field == "reason"
    ensures ErrorsFor(n + e + l + r, Label(f)) ==
      match f case Name => n case Email => e case Language => l case Reason => r
  {
    var q := Label(f);
    ErrorsForConcat(n, e, q);
    ErrorsForConcat(n + e, l, q);
    ErrorsForConcat(n + e + l, r, q);
    ErrorsForUniform(n, "name", q);
    ErrorsForUniform(e, "email", q);
    ErrorsForUniform(l, "language", q);
    ErrorsForUniform(r, "reason", q);
    match f
    case Name => assert ErrorsFor(n + e + l + r, q) == n + [] + [] + [];
    case Email => assert ErrorsFor(n + e + l + r, q) == [] + e + [] + [];
    case Language => assert ErrorsFor(n + e + l + r, q) == [] + [] + l + [];
    case Reason => assert ErrorsFor(n + e + l + r, q) == [] + [] + [] + r;
  }

  /** A field's errors are computed from that field's value alone. */
  lemma FieldErrorsFromOwnValue(d: FormData, f: Field)
    ensures ErrorsFor(ValidationErrors(d), Label(f)) == ErrorsOf(f, ValueOf(d, f))
  {
    ErrorsForParts(NameErrors(d.name), EmailErrors(d.email),
                   LanguageErrors(d.language), ReasonErrors(d.reason), f);
  }

  /** Changing the other fields never adds or removes an error of field `f`. */
  lemma FieldErrorsIndependent(d: FormData, d': FormData, f: Field)
    requires ValueOf(d, f) == ValueOf(d', f)
    ensures ErrorsFor(ValidationErrors(d), Label(f)) == ErrorsFor(ValidationErrors(d'), Label(f))
  {
    FieldErrorsFromOwnValue(d, f);
    FieldErrorsFromOwnValue(d', f);
  }

  /** Position of the first error about `field`, or -1. */
  function FirstErrorIndex(errs: seq<ValidationError>, field: string): (k: int)
    ensures -1 <= k < |errs|
    ensures k == -1 <==> forall i :: 0 <= i < |errs| ==> errs[i].field != field
    ensures k >= 0 ==> errs[k].field == field && forall j :: 0 <= j < k ==> errs[j].field != field
  {
    if errs == [] then -1
    else if errs[0].field == field then 0
    else
      var k := FirstErrorIndex(errs[1..], field);
      if k == -1 then -1 else k + 1
  }

  /** `getFieldError`: the message of the first error about `field`, or none when there is none. */
  function GetFieldError(errors: seq<ValidationError>, field: string): (r: Option<string>)
    ensures r.None? <==> forall i :: 0 <= i < |errors| ==> errors[i].field != field
    ensures r.Some? ==> exists i :: 0 <= i < |errors| && errors[i] == ValidationError(field, r.value)
                                    && forall j :: 0 <= j < i ==> errors[j].field != field
  {
    var k := FirstErrorIndex(errors, field);
    if k < 0 then None else Some(errors[k].message)
  }

  /** `getFieldError` reads the first of the field's errors. */
  lemma {:induction false} GetFieldErrorIsFirstOfField(errs: seq<ValidationError>, field: string)
    ensures var mine := ErrorsFor(errs, field);
            GetFieldError(errs, field) == if mine == [] then None else Some(mine[0].message)
  {
    if errs != [] && errs[0].field != field {
      GetFieldErrorIsFirstOfField(errs[1..], field);
      assert FirstErrorIndex(errs, field) == if FirstErrorIndex(errs[1..], field) == -1 then -1
                                             else FirstErrorIndex(errs[1..], field) + 1;
    }
  }

  /** The message `getFieldError` finds for field `f` after validating `d`. */
  lemma FieldMessage(d: FormData, f: Field)
    ensures var mine := ErrorsOf(f, ValueOf(d, f));
            GetFieldError(ValidationErrors(d), Label(f)) == if mine == [] then None else Some(mine[0].message)
  {
    FieldErrorsFromOwnValue(d, f);
    GetFieldErrorIsFirstOfField(ValidationErrors(d), Label(f));
  }

  /** A name, email or reason of white space only draws the "required" message, never the
      length or format one. */
  lemma WhitespaceOnlyIsRequired(d: FormData)
    ensures AllSpace(d.name) ==> GetFieldError(ValidationErrors(d), "name") == Some(NameRequired)
    ensures AllSpace(d.email) ==> GetFieldError(ValidationErrors(d), "email") == Some(EmailRequired)
    ensures AllSpace(d.reason) ==>
      GetFieldError(ValidationErrors(d), "reason") == Some(ReasonRequired)
  {
    FieldMessage(d, Name);
    FieldMessage(d, Email);
    FieldMessage(d, Reason);
  }

  /** The language is not trimmed: any non-empty value, white space included, passes. */
  lemma LanguageNotTrimmed(d: FormData)
    ensures d.language != "" ==> GetFieldError(ValidationErrors(d), "language") == None
    ensures d.language == "" ==>
      GetFieldError(ValidationErrors(d), "language") == Some(LanguageRequired)
  {
    FieldMessage(d, Language);
  }

  /** The repository's own `getFieldError` examples. */
  lemma GetFieldErrorExamples()
    ensures var errs := [ValidationError("name", NameRequired), ValidationError("email", "Invalid email")];
            && GetFieldError(errs, "name") == Some(NameRequired)
            && GetFieldError(errs, "email") == Some("Invalid email")
            && GetFieldError(errs, "language") == None
            && GetFieldError([], "name") == None
  {
    var errs := [ValidationError("name", "Name is required"), ValidationError("email", "Invalid email")];
    assert errs[1..] == [ValidationError("email", "Invalid email")];
    assert errs[1..][1..] == [];
  }
}
