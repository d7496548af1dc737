/**
 * The password-creation page an invited admin lands on: the invite id from
 * the link, a password and its confirmation, per-field errors, and an
 * activation request made only when the form passes.
 */
module CreatePassword {
  import opened Js

  datatype PasswordField = InviteId | Password | ConfirmPassword

  const INVITE_MISSING := "Invalid or missing invite link."
  const PASSWORD_REQUIRED := "Password is required"
  const PASSWORD_SHORT := "Password must be at least 8 characters"
  const CONFIRM_REQUIRED := "Confirm password is required"
  const PASSWORDS_DIFFER := "Passwords do not match"
  const ACTIVATION_FAILED := "Activation failed"

  /** `searchParams.get("invite_id") || ""`: a missing parameter reads as empty. */
  function InviteIdFrom(param: Option<string>): (id: string)
    ensures param.Some? ==> id == param.value
    ensures param.None? ==> id == ""
  {
    match param
    case Some(v) => v
    case None => ""
  }

  /** The `newErrors` dictionary `validateForm` builds. */
  function ValidationErrors(inviteId: string, password: string, confirm: string): (errs: map<PasswordField, string>)
    ensures InviteId in errs <==> inviteId == ""
    ensures InviteId in errs ==> errs[InviteId] == INVITE_MISSING
    ensures Password in errs <==> |password| < 8
    ensures Password in errs ==> errs[Password] == if password == "" then PASSWORD_REQUIRED else PASSWORD_SHORT
    ensures ConfirmPassword in errs <==> confirm == "" || confirm != password
    ensures ConfirmPassword in errs ==> errs[ConfirmPassword] == if confirm == "" then CONFIRM_REQUIRED else PASSWORDS_DIFFER
  {
    var e1: map<PasswordField, string> := if inviteId == "" then map[InviteId := INVITE_MISSING] else map[];
    var e2 :=
      if password == "" then e1[Password := PASSWORD_REQUIRED]
      else if |password| < 8 then e1[Password := PASSWORD_SHORT]
      else e1;
    if confirm == "" then e2[ConfirmPassword := CONFIRM_REQUIRED]
    else if password != confirm then e2[ConfirmPassword := PASSWORDS_DIFFER]
    else e2
  }

  /**
   * The form passes exactly when there is an invite id, the password has at
   * least eight characters, and the confirmation repeats it.
   */
  lemma ValidIff(inviteId: string, password: string, confirm: string)
    ensures |ValidationErrors(inviteId, password, confirm)| == 0 <==>
      inviteId != "" && |password| >= 8 && confirm == password
  {
    var errs := ValidationErrors(inviteId, password, confirm);
    if |errs| == 0 {
      assert InviteId !in errs && Password !in errs && ConfirmPassword !in errs;
    } else {
      var k :| k in errs;
    }
  }

  /** What the activation request came back with. */
  datatype ActivationOutcome =
    | Activated
      /** A refusal, with the body's `message` and `error` (empty when absent). */
    | Refused(message: string, error: string)
      /** The request itself failed with this message. */
    | Unreachable(message: string)

  /** The message recorded against the invite id when activation does not succeed. */
  function FailureMessage(outcome: ActivationOutcome): (m: string)
    requires !outcome.Activated?
  {
    match outcome
    case Refused(message, error) =>
      if message != "" then message else if error != "" then error else ACTIVATION_FAILED
    case Unreachable(message) => message
  }

  /** An error entry as the page reads it: missing reads as empty. */
  function ErrorOf(errors: map<PasswordField, string>, f: PasswordField): string
  {
    if f in errors then errors[f] else ""
  }

  class CreatePasswordForm {
    const inviteId: string
    var password: string
    var confirmPassword: string
    var errors: map<PasswordField, string>
    var submitting: bool

    constructor (inviteParam: Option<string>)
      ensures inviteId == InviteIdFrom(inviteParam)
      ensures password == "" && confirmPassword == "" && errors == map[] && !submitting
    {
      inviteId := InviteIdFrom(inviteParam);
      password := "";
      confirmPassword := "";
      errors := map[];
      submitting := false;
    }

    /** `handleChange` on one of the two inputs: that field takes the input and its error is cleared. */
    method HandleChange(name: PasswordField, value: string)
      requires name != InviteId
      modifies this`password, this`confirmPassword, this`errors
      ensures name == Password ==> password == value && confirmPassword == old(confirmPassword)
      ensures name == ConfirmPassword ==> confirmPassword == value && password == old(password)
      ensures ErrorOf(errors, name) == ""
      ensures forall f :: f != name ==> ErrorOf(errors, f) == ErrorOf(old(errors), f)
    {
      if name == Password {
        password := value;
      } else {
        confirmPassword := value;
      }
      if ErrorOf(errors, name) != "" {
        errors := errors[name := ""];
      }
    }

    /** `validateForm`. */
    method ValidateForm() returns (ok: bool)
      modifies this`errors
      ensures errors == ValidationErrors(inviteId, password, confirmPassword)
      ensures ok <==> |errors| == 0
    {
      var newErrors := ValidationErrors(inviteId, password, confirmPassword);
      errors := newErrors;
      ok := |newErrors| == 0;
    }

    /**
     * `handleSubmit`: the activation request is made (`attempted`) only when
     * the form passes; `outcome` is its result. Success navigates to the
     * login page; a failure replaces all errors with its message.
     */
    method HandleSubmit(outcome: ActivationOutcome) returns (attempted: bool, navigated: bool)
      modifies this`errors, this`submitting
      ensures attempted <==> inviteId != "" && |password| >= 8 && confirmPassword == password
      ensures !attempted ==>
        errors == ValidationErrors(inviteId, password, confirmPassword) && !navigated && submitting == old(submitting)
      ensures attempted ==> (navigated <==> outcome.Activated?) && !submitting
      ensures attempted && outcome.Activated? ==> errors == map[]
      ensures attempted && !outcome.Activated? ==> errors == map[InviteId := FailureMessage(outcome)]
    {
      ValidIff(inviteId, password, confirmPassword);
      navigated := false;
      attempted := ValidateForm();
      if !attempted {
        return;
      }
      submitting := true;
      if outcome.Activated? {
        navigated := true;
      } else {
        errors := map[InviteId := FailureMessage(outcome)];
      }
      submitting := false;
    }
  }
}
