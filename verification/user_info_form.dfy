/** The buyer-details form (components/user-info-form.tsx): three text
    fields, their validation, the submit gate and the per-field edit that
    clears a shown error. */
module UserInfoForm {
  import opened Wrappers
  import opened Strings

  const NameRequired := "Name is required"
  const EmailRequired := "Email is required"
  const EmailInvalid := "Please enter a valid email"
  const PhoneRequired := "Phone number is required"
  const PhoneInvalid := "Please enter a valid phone number"

  datatype Field = Name | Email | Phone

  /** What the form holds and hands to its `onSubmit` callback. */
  datatype FormData = FormData(name: string, email: string, phone: string)
  {
    function Get(field: Field): string {
      match field
      case Name => name
      case Email => email
      case Phone => phone
    }

    function Set(field: Field, value: string): (r: FormData)
      ensures r.Get(field) == value
      ensures forall other: Field | other != field :: r.Get(other) == Get(other)
    {
      match field
      case Name => this.(name := value)
      case Email => this.(email := value)
      case Phone => this.(phone := value)
    }
  }

  /** The shown error per field; a field with no entry has none. */
  type Errors = map<Field, string>

  /* -------------------------------------------- /\S+@\S+\.\S+/.test(s) */

  /** An occurrence of the email pattern with its `@` at `at` and its `.` at
      `dot`: a non-whitespace character before the `@`, one or more between
      them, and one after the `.` (the unanchored pattern needs no more). */
  predicate EmailMatchAt(s: string, at: int, dot: int) {
    && 1 <= at && at + 1 < dot && dot + 1 < |s|
    && s[at] == '@' && s[dot] == '.'
    && !IsSpace(s[at - 1])
    && NoSpaceBetween(s, at + 1, dot)
    && !IsSpace(s[dot + 1])
  }

  /** `/\S+@\S+\.\S+/.test(s)`: the pattern occurs somewhere in `s`. */
  ghost predicate EmailShaped(s: string) {
    exists at, dot :: EmailMatchAt(s, at, dot)
  }

  /** The regular-expression test as a scan: each `@` preceded by a
      non-whitespace character is followed through its run of non-whitespace
      characters, looking for a `.` with something before and after it. */
  method TestEmail(s: string) returns (found: bool)
    ensures found <==> EmailShaped(s)
  {
    var at := 1;
    while at < |s|
      invariant 1 <= at
      invariant forall x, d | EmailMatchAt(s, x, d) :: x >= at
    {
      if s[at] == '@' && !IsSpace(s[at - 1]) {
        var j := at + 1;
        while j < |s| && !IsSpace(s[j])
          invariant at + 1 <= j <= |s|
          invariant NoSpaceBetween(s, at + 1, j)
          invariant forall d | EmailMatchAt(s, at, d) :: d >= j
        {
          if s[j] == '.' && j > at + 1 && j + 1 < |s| && !IsSpace(s[j + 1]) {
            assert EmailMatchAt(s, at, j);
            return true;
          }
          j := j + 1;
        }
        assert forall d :: !EmailMatchAt(s, at, d);
      }
      at := at + 1;
    }
    assert forall x, d :: !EmailMatchAt(s, x, d);
    return false;
  }

  /** A blank text never contains the email pattern. */
  lemma BlankIsNoEmail(s: string)
    requires IsBlank(s)
    ensures !EmailShaped(s)
  {
    assert AllSpace(s);
  }

  /* ------------------------------------- /^\+?[\d\s\-()]{10,}$/.test(s) */

  /** A character the phone pattern's class `[\d\s\-()]` admits. */
  predicate PhoneChar(c: char) {
    IsDigit(c) || IsSpace(c) || c == '-' || c == '(' || c == ')'
  }

  /** At least ten characters, all from the phone class. */
  predicate PhoneBody(t: string) {
    |t| >= 10 && forall i :: 0 <= i < |t| ==> PhoneChar(t[i])
  }

  /** `/^\+?[\d\s\-()]{10,}$/.test(s)`: the whole text is an optional `+`
      followed by the phone body (`+` is not in the class, so there is no
      other way to split it). */
  predicate PhoneShaped(s: string) {
    PhoneBody(s) || (|s| > 0 && s[0] == '+' && PhoneBody(s[1..]))
  }

  /* -------------------------------------------------------- validation */

  /** The error `validateForm()` records for the email field, if any: a
      blank address is missing, any other that does not fit the pattern is
      invalid. */
  method EmailError(email: string) returns (e: Option<string>)
    ensures e.Some? <==> IsBlank(email) || !EmailShaped(email)
    ensures e.Some? ==> e.value == if IsBlank(email) then EmailRequired else EmailInvalid
  {
    if IsBlank(email) {
      return Some(EmailRequired);
    }
    var shaped := TestEmail(email);
    e := if shaped then None else Some(EmailInvalid);
  }

  /** The error recorded for the phone field, if any: blank first, then the
      pattern. */
  function PhoneError(phone: string): (e: Option<string>)
    ensures e.Some? <==> IsBlank(phone) || !PhoneShaped(phone)
    ensures e.Some? ==> e.value == if IsBlank(phone) then PhoneRequired else PhoneInvalid
  {
    if IsBlank(phone) then Some(PhoneRequired)
    else if !PhoneShaped(phone) then Some(PhoneInvalid)
    else None
  }

  /** The error map holding exactly the given per-field errors. */
  function Collect(name: Option<string>, email: Option<string>, phone: Option<string>): (r: Errors)
    ensures Name in r <==> name.Some?
    ensures Name in r ==> r[Name] == name.value
    ensures Email in r <==> email.Some?
    ensures Email in r ==> r[Email] == email.value
    ensures Phone in r <==> phone.Some?
    ensures Phone in r ==> r[Phone] == phone.value
    ensures r == map[] <==> name.None? && email.None? && phone.None?
  {
    var withName: Errors := if name.Some? then map[Name := name.value] else map[];
    var withEmail := if email.Some? then withName[Email := email.value] else withName;
    var r := if phone.Some? then withEmail[Phone := phone.value] else withEmail;
    assert r == map[] ==> Name !in r && Email !in r && Phone !in r;
    r
  }

  /** `validateForm()`: the errors it stores and whether it passes. Each
      field gets at most one error, and a blank field is reported as required
      before its format is looked at; the form passes exactly when no field
      has an error. */
  method ValidateForm(f: FormData) returns (errors: Errors, valid: bool)
    ensures Name in errors <==> IsBlank(f.name)
    ensures Name in errors ==> errors[Name] == NameRequired
    ensures Email in errors <==> IsBlank(f.email) || !EmailShaped(f.email)
    ensures Email in errors ==> errors[Email] == if IsBlank(f.email) then EmailRequired else EmailInvalid
    ensures Phone in errors <==> IsBlank(f.phone) || !PhoneShaped(f.phone)
    ensures Phone in errors ==> errors[Phone] == if IsBlank(f.phone) then PhoneRequired else PhoneInvalid
    ensures valid <==> errors == map[]
    ensures valid <==> !IsBlank(f.name) && !IsBlank(f.email) && EmailShaped(f.email) && PhoneShaped(f.phone) && !IsBlank(f.phone)
  {
    var nameError := if IsBlank(f.name) then Some(NameRequired) else None;
    var emailError := EmailError(f.email);
    errors := Collect(nameError, emailError, PhoneError(f.phone));
    valid := |errors| == 0;
  }

  /** Ten spaces fit the phone pattern, yet are reported as a missing
      number: the required check comes first. */
  lemma BlankPhoneIsRequiredNotInvalid()
    ensures PhoneShaped("          ")
    ensures IsBlank("          ")
  {
    var s := "          ";
    assert AllSpace(s);
  }

  /** `handleSubmit`: the form is always validated; `onSubmit` receives the
      data only when validation passed and no payment is in progress. */
  method HandleSubmit(f: FormData, isProcessing: bool) returns (errors: Errors, submitted: Option<FormData>)
    ensures submitted.Some? <==> errors == map[] && !isProcessing
    ensures submitted.Some? ==> submitted.value == f
    ensures submitted.Some? ==> !IsBlank(f.name) && EmailShaped(f.email) && PhoneShaped(f.phone) && !IsBlank(f.phone)
  {
    var valid;
    errors, valid := ValidateForm(f);
    if valid && !isProcessing {
      submitted := Some(f);
    } else {
      submitted := None;
    }
  }

  /** `handleInputChange(field, value)`: only the named field takes the new
      value, and only that field's error, if it has one, is cleared (kept as
      an empty entry). */
  function HandleInputChange(f: FormData, errors: Errors, field: Field, value: string): (r: (FormData, Errors))
    ensures r.0.Get(field) == value
    ensures forall other: Field | other != field :: r.0.Get(other) == f.Get(other)
    ensures r.1.Keys == errors.Keys
    ensures field in errors ==> r.1[field] == ""
    ensures forall other | other in errors && other != field :: r.1[other] == errors[other]
  {
    var data := f.Set(field, value);
    if field in errors && errors[field] != "" then (data, errors[field := ""]) else (data, errors)
  }
}
