/** The survey service's client-side required-field check. */
module FormService {
  import opened Js
  import opened Survey

  const AGE_GROUP_REQUIRED := "Age group is required"
  const VILLAGE_REQUIRED := "Village is required"

  /**
   * `validateFormData`: a falsy age group and a falsy village each add their
   * message, in that order; the data is valid when no message was added. An
   * empty list is truthy and so counts as present.
   */
  method ValidateFormData(formData: FormData) returns (isValid: bool, errors: seq<string>)
    ensures AGE_GROUP_REQUIRED in errors <==> !Truthy(Lookup(formData, "ageGroup"))
    ensures VILLAGE_REQUIRED in errors <==> !Truthy(Lookup(formData, VILLAGE))
    ensures |errors| <= 2 && forall i :: 0 <= i < |errors| ==> errors[i] in {AGE_GROUP_REQUIRED, VILLAGE_REQUIRED}
    ensures |errors| == 2 ==> errors == [AGE_GROUP_REQUIRED, VILLAGE_REQUIRED]
    ensures Lookup(formData, "ageGroup") == Some(Many([])) ==> AGE_GROUP_REQUIRED !in errors
    ensures isValid <==> errors == []
  {
    errors := [];
    if !Truthy(Lookup(formData, "ageGroup")) {
      errors := errors + [AGE_GROUP_REQUIRED];
    }
    if !Truthy(Lookup(formData, VILLAGE)) {
      errors := errors + [VILLAGE_REQUIRED];
    }
    isValid := |errors| == 0;
  }
}
