/**
 * The admin invitation form: five text fields, a digits-only mobile field
 * of at most ten characters, per-field error messages that a change clears,
 * an email and mobile validation, and a send that resets the fields.
 */
module Invite {
  import opened Js

  datatype InviteField = Email | FullName | Mobile | Location | Note

  const ALL_FIELDS: set<InviteField> := {Email, FullName, Mobile, Location, Note}

  const EMAIL_REQUIRED := "Email is required"
  const EMAIL_INVALID := "Please enter a valid email address"
  const MOBILE_REQUIRED := "Mobile number is required"
  const MOBILE_LENGTH := "Mobile number must be 10 digits"
  const SENT := "invition sent successfully!"
  const SEND_FAILED := "Failed to send invitation. Please try again."

  // ---------------------------------------------------------------------------
  // The email pattern
  // ---------------------------------------------------------------------------

  /** `[^\s@]` over `s[lo..hi]`: no white space and no `@` there. */
  predicate NoSpaceOrAt(s: string, lo: int, hi: int)
  {
    forall j :: lo <= j < hi && 0 <= j < |s| ==> !IsSpace(s[j]) && s[j] != '@'
  }

  /**
   * `/^[^\s@]+@[^\s@]+\.[^\s@]+$/.test(s)`, read as the regular expression
   * reads: some split of `s` into a non-empty run, `@`, a non-empty run,
   * `.`, and a non-empty run, none of the runs holding white space or `@`.
   */
  predicate MatchesEmailPattern(s: string)
  {
    exists a, b :: 0 < a && a + 1 < b && b + 1 < |s| && s[a] == '@' && s[b] == '.'
      && NoSpaceOrAt(s, 0, a) && NoSpaceOrAt(s, a + 1, b) && NoSpaceOrAt(s, b + 1, |s|)
  }

  /**
   * The same test in plain words: no white space, exactly one `@`, not at
   * the start, and a `.` somewhere after it with at least one character on
   * either side.
   */
  predicate EmailShaped(s: string)
  {
    (forall j :: 0 <= j < |s| ==> !IsSpace(s[j]))
    && (exists a :: 0 < a < |s| && s[a] == '@'
         && (forall j :: 0 <= j < |s| && j != a ==> s[j] != '@')
         && (exists b :: a + 1 < b < |s| - 1 && s[b] == '.'))
  }

  lemma PatternGivesShape(s: string)
    requires MatchesEmailPattern(s)
    ensures EmailShaped(s)
  {
    var a, b :| 0 < a && a + 1 < b && b + 1 < |s| && s[a] == '@' && s[b] == '.'
      && NoSpaceOrAt(s, 0, a) && NoSpaceOrAt(s, a + 1, b) && NoSpaceOrAt(s, b + 1, |s|);
    assert !IsSpace(s[a]);
    assert forall j :: 0 <= j < |s| && j != a ==> s[j] != '@';
    assert a + 1 < b < |s| - 1 && s[b] == '.';
  }

  lemma ShapeGivesPattern(s: string)
    requires EmailShaped(s)
    ensures MatchesEmailPattern(s)
  {
    var a :| 0 < a < |s| && s[a] == '@'
      && (forall j :: 0 <= j < |s| && j != a ==> s[j] != '@')
      && exists b :: a + 1 < b < |s| - 1 && s[b] == '.';
    var b :| a + 1 < b < |s| - 1 && s[b] == '.';
    assert NoSpaceOrAt(s, 0, a) && NoSpaceOrAt(s, a + 1, b) && NoSpaceOrAt(s, b + 1, |s|);
  }

  /** The email pattern in plain words. */
  lemma EmailPatternIffShaped(s: string)
    ensures MatchesEmailPattern(s) <==> EmailShaped(s)
  {
    if MatchesEmailPattern(s) {
      PatternGivesShape(s);
    }
    if EmailShaped(s) {
      ShapeGivesPattern(s);
    }
  }

  // ---------------------------------------------------------------------------
  // validateForm
  // ---------------------------------------------------------------------------

  /** The `newErrors` dictionary `validateForm` builds. */
  function ValidationErrors(email: string, mobile: string): (errs: map<InviteField, string>)
    ensures errs.Keys <= {Email, Mobile}
    ensures Email in errs <==> Trim(email) == "" || !MatchesEmailPattern(email)
    ensures Email in errs ==> errs[Email] == if Trim(email) == "" then EMAIL_REQUIRED else EMAIL_INVALID
    ensures Mobile in errs <==> Trim(mobile) == "" || |mobile| != 10
    ensures Mobile in errs ==> errs[Mobile] == if Trim(mobile) == "" then MOBILE_REQUIRED else MOBILE_LENGTH
  {
    var emailErrors: map<InviteField, string> :=
      if Trim(email) == "" then map[Email := EMAIL_REQUIRED]
      else if !MatchesEmailPattern(email) then map[Email := EMAIL_INVALID]
      else map[];
    if Trim(mobile) == "" then emailErrors[Mobile := MOBILE_REQUIRED]
    else if |mobile| != 10 then emailErrors[Mobile := MOBILE_LENGTH]
    else emailErrors
  }

  /**
   * The form passes exactly when the email is not blank and has the email
   * shape, and the mobile number is not blank and has ten characters.
   */
  lemma ValidIff(email: string, mobile: string)
    ensures |ValidationErrors(email, mobile)| == 0 <==>
      !IsBlank(email) && EmailShaped(email) && !IsBlank(mobile) && |mobile| == 10
  {
    var errs := ValidationErrors(email, mobile);
    TrimEmptyIffBlank(email);
    TrimEmptyIffBlank(mobile);
    EmailPatternIffShaped(email);
    if |errs| == 0 {
      assert Email !in errs && Mobile !in errs;
    } else {
      assert Email in errs || Mobile in errs;
    }
  }

  /** Ten digits, which the mobile field can hold, always pass the mobile check. */
  lemma TenDigitsPass(email: string, mobile: string)
    requires |mobile| == 10 && AllDigits(mobile)
    ensures Mobile !in ValidationErrors(email, mobile)
  {
    assert !IsSpace(mobile[0]);
    TrimEmptyIffBlank(mobile);
  }

  // ---------------------------------------------------------------------------
  // The form's state
  // ---------------------------------------------------------------------------

  /** What the invitation endpoint answered; an empty message means none was given. */
  datatype SendOutcome = Delivered(message: string) | SendFailed(message: string)

  /** An error entry as the page reads it: missing reads as empty. */
  function ErrorOf(errors: map<InviteField, string>, f: InviteField): string
  {
    if f in errors then errors[f] else ""
  }

  /** The five fields, all empty. */
  function BlankForm(): (f: map<InviteField, string>)
    ensures f.Keys == ALL_FIELDS && forall k :: k in f ==> f[k] == ""
  {
    map[Email := "", FullName := "", Mobile := "", Location := "", Note := ""]
  }

  predicate MobileEntryOk(m: string)
  {
    AllDigits(m) && |m| <= 10
  }

  class InviteForm {
    var formData: map<InviteField, string>
    var errors: map<InviteField, string>
    var submitting: bool
    var successMessage: Option<string>
    var errorMessage: Option<string>

    /** Every field has an entry. */
    predicate Valid()
      reads this
    {
      formData.Keys == ALL_FIELDS
    }

    /** The mobile entry is at most ten digits, as the change handler keeps it. */
    predicate MobileHeld()
      reads this
      requires Valid()
    {
      MobileEntryOk(formData[Mobile])
    }

    constructor ()
      ensures Valid() && MobileHeld() && forall f :: f in formData ==> formData[f] == ""
      ensures errors == map[] && !submitting && successMessage == None && errorMessage == None
    {
      formData := BlankForm();
      errors := map[];
      submitting := false;
      successMessage := None;
      errorMessage := None;
    }

    /**
     * `handleChange`: the mobile field keeps only digits and only when there
     * are at most ten of them; other fields take the input as it is. The
     * field's error entry is cleared, whether or not the value was taken.
     */
    method HandleChange(name: InviteField, value: string)
      requires Valid()
      modifies this`formData, this`errors
      ensures Valid()
      ensures old(MobileHeld()) ==> MobileHeld()
      ensures name != Mobile ==> formData == old(formData)[name := value]
      ensures name == Mobile && |StripNonDigits(value)| <= 10 ==> formData == old(formData)[Mobile := StripNonDigits(value)]
      ensures name == Mobile && |StripNonDigits(value)| > 10 ==> formData == old(formData)
      ensures ErrorOf(errors, name) == ""
      ensures forall f :: f != name ==> ErrorOf(errors, f) == ErrorOf(old(errors), f)
    {
      if name == Mobile {
        var cleanedValue := StripNonDigits(value);
        if |cleanedValue| <= 10 {
          formData := formData[name := cleanedValue];
        }
      } else {
        formData := formData[name := value];
      }
      if ErrorOf(errors, name) != "" {
        errors := errors[name := ""];
      }
    }

    /** `validateForm`: record the errors; pass when there are none. */
    method ValidateForm() returns (ok: bool)
      requires Valid()
      modifies this`errors
      ensures errors == ValidationErrors(formData[Email], formData[Mobile])
      ensures ok <==> |errors| == 0
    {
      var email, mobile := formData[Email], formData[Mobile];
      var newErrors := ValidationErrors(email, mobile);
      errors := newErrors;
      ok := |newErrors| == 0;
    }

    /**
     * `handleSubmit`: the request is sent (and returned) only when the form
     * passes; `outcome` is the endpoint's answer. A delivered invitation
     * resets every field; a failure keeps them and records the message.
     */
    method HandleSubmit(outcome: SendOutcome) returns (request: Option<map<InviteField, string>>)
      requires Valid()
      modifies this`formData, this`errors, this`submitting, this`successMessage, this`errorMessage
      ensures Valid()
      ensures old(MobileHeld()) ==> MobileHeld()
      ensures errors == ValidationErrors(old(formData)[Email], old(formData)[Mobile])
      ensures request.Some? <==> |errors| == 0
      ensures request.None? ==> formData == old(formData) && successMessage == None && errorMessage == None
      ensures request.Some? ==> request.value == old(formData)
      ensures request.Some? && outcome.Delivered? ==>
        successMessage == Some(if outcome.message != "" then outcome.message else SENT)
        && errorMessage == None
        && forall f :: f in formData ==> formData[f] == ""
      ensures request.Some? && outcome.SendFailed? ==>
        errorMessage == Some(if outcome.message != "" then outcome.message else SEND_FAILED)
        && successMessage == None && formData == old(formData)
      ensures request.None? ==> submitting == old(submitting)
      ensures request.Some? ==> !submitting
    {
      successMessage := None;
      errorMessage := None;
      var ok := ValidateForm();
      if !ok {
        return None;
      }
      submitting := true;
      request := Some(formData);
      match outcome {
        case Delivered(m) =>
          successMessage := Some(if m != "" then m else SENT);
          formData := BlankForm();
        case SendFailed(m) =>
          errorMessage := Some(if m != "" then m else SEND_FAILED);
      }
      submitting := false;
    }
  }
}
