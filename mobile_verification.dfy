/**
 * The stand-alone mobile verification screen: a digits-only field of at
 * most ten characters and a continue action that hands the number on only
 * when it is exactly ten decimal digits.
 */
module MobileVerification {
  import opened Js

  const INVALID_MOBILE := "Please enter a valid 10-digit mobile number"

  /** `/^\d{10}$/.test(s)`: exactly ten ASCII decimal digits. */
  predicate TenDigits(s: string)
  {
    |s| == 10 && AllDigits(s)
  }

  /** The continue button's disabled rule. */
  predicate SubmitDisabled(mobileNumber: string, isValidating: bool)
  {
    |mobileNumber| != 10 || isValidating
  }

  /**
   * For a field that only ever holds digits, the button is disabled exactly
   * when the number would be refused on submit.
   */
  lemma DisabledIffRefused(s: string)
    requires AllDigits(s)
    ensures SubmitDisabled(s, false) <==> !TenDigits(s)
  {
  }

  class MobileVerificationScreen {
    var mobileNumber: string
    var error: Option<string>
    /** Declared as state but never set: always false. */
    const isValidating: bool

    /** The field holds at most ten digits and nothing else. */
    predicate Valid()
      reads this
    {
      AllDigits(mobileNumber) && |mobileNumber| <= 10 && !isValidating
    }

    constructor ()
      ensures Valid() && mobileNumber == "" && error == None
    {
      mobileNumber := "";
      error := None;
      isValidating := false;
    }

    /** `handleMobileChange`: keep the digits; take them when there are at most ten. */
    method HandleMobileChange(input: string)
      requires Valid()
      modifies this`mobileNumber, this`error
      ensures Valid()
      ensures |StripNonDigits(input)| <= 10 ==> mobileNumber == StripNonDigits(input) && error == None
      ensures |StripNonDigits(input)| > 10 ==> mobileNumber == old(mobileNumber) && error == old(error)
    {
      var value := StripNonDigits(input);
      if |value| <= 10 {
        mobileNumber := value;
        error := None;
      }
    }

    /**
     * `handleSubmit`: a ten-digit number is passed to `onVerified` (returned
     * here); anything else records the error and passes nothing on.
     */
    method HandleSubmit() returns (verified: Option<string>)
      requires Valid()
      modifies this`error
      ensures Valid()
      ensures verified.Some? <==> TenDigits(mobileNumber)
      ensures verified.Some? ==> verified.value == mobileNumber && error == None
      ensures verified.None? ==> error == Some(INVALID_MOBILE)
    {
      error := None;
      if !TenDigits(mobileNumber) {
        error := Some(INVALID_MOBILE);
        return None;
      }
      verified := Some(mobileNumber);
    }
  }
}
