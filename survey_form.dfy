/**
 * The survey screen around the form engine: the mobile-number field and its
 * existence check, the already-submitted and try-again transitions, the
 * continue handler that either moves on or opens the review, the consent and
 * submission flags, the order in which screens win, and the row layout of a
 * step's questions.
 */
module SurveyFlow {
  import opened Js
  import opened Survey
  import opened Grouping
  import opened ProgressiveForm

  // ---------------------------------------------------------------------------
  // Which screen is shown
  // ---------------------------------------------------------------------------

  datatype Screen = Spinner | Disclaimer | VerifyingSpinner | AlreadySubmitted | Review | ThankYou | LoadingSurvey | StepScreen

  /** The flags the early returns look at. */
  datatype Flags = Flags(
    loading: bool,
    showDisclaimer: bool,
    verifyingMobile: bool,
    alreadySubmitted: bool,
    showReview: bool,
    referenceId: string,
    hasStep: bool)

  /** Priority of a screen: the smaller, the earlier it is tried. */
  function Rank(s: Screen): nat
  {
    match s
    case Spinner => 0
    case Disclaimer => 1
    case VerifyingSpinner => 2
    case AlreadySubmitted => 3
    case Review => 4
    case ThankYou => 5
    case LoadingSurvey => 6
    case StepScreen => 7
  }

  /** The condition under which a screen asks to be shown. */
  predicate Wants(s: Screen, f: Flags)
  {
    match s
    case Spinner => f.loading
    case Disclaimer => f.showDisclaimer
    case VerifyingSpinner => f.verifyingMobile
    case AlreadySubmitted => f.alreadySubmitted
    case Review => f.showReview
    case ThankYou => f.referenceId != ""
    case LoadingSurvey => !f.hasStep
    case StepScreen => true
  }

  /** The chain of early returns: the first screen whose condition holds. */
  function ChooseScreen(f: Flags): (s: Screen)
    ensures Wants(s, f)
    ensures forall t :: Rank(t) < Rank(s) ==> !Wants(t, f)
  {
    if f.loading then Spinner
    else if f.showDisclaimer then Disclaimer
    else if f.verifyingMobile then VerifyingSpinner
    else if f.alreadySubmitted then AlreadySubmitted
    else if f.showReview then Review
    else if f.referenceId != "" then ThankYou
    else if !f.hasStep then LoadingSurvey
    else StepScreen
  }

  // ---------------------------------------------------------------------------
  // The continue button and the continue scan
  // ---------------------------------------------------------------------------

  /**
   * The continue button is enabled when the step can be left, the mobile
   * number has 10 characters on the location step, and no check is running.
   */
  predicate ContinueEnabled(step: Step, data: FormData, mobileNumber: string, verifyingMobile: bool)
  {
    StepComplete(step.questions, data)
    && !(step.stepNumber == 0 && |mobileNumber| != 10)
    && !verifyingMobile
  }

  lemma ContinueEnabledIff(step: Step, data: FormData, mobileNumber: string, verifyingMobile: bool)
    ensures ContinueEnabled(step, data, mobileNumber, verifyingMobile) <==>
      (forall i :: 0 <= i < |step.questions| && Visible(step.questions[i], data) && step.questions[i].required
         ==> HasValue(Lookup(data, step.questions[i].id)))
      && (step.stepNumber == 0 ==> |mobileNumber| == 10)
      && !verifyingMobile
  {
    StepCompleteIff(step.questions, data);
  }

  /** The first step at or after `from` that the continue handler's own filter finds non-empty. */
  function NextVisibleGuarded(steps: seq<Step>, data: FormData, from: nat): Option<nat>
    decreases |steps| - from
  {
    if from >= |steps| then None
    else if HasVisibleGuarded(steps[from], data) then Some(from)
    else NextVisibleGuarded(steps, data, from + 1)
  }

  /**
   * The step found is the first at or after `from` that the handler's filter
   * finds non-empty; none is found exactly when no such step follows.
   */
  lemma {:induction false} NextVisibleGuardedIsFirst(steps: seq<Step>, data: FormData, from: nat)
    decreases |steps| - from
    ensures var r := NextVisibleGuarded(steps, data, from);
      r.Some? ==>
        from <= r.value < |steps| && HasVisibleGuarded(steps[r.value], data)
        && forall k :: from <= k < r.value ==> !HasVisibleGuarded(steps[k], data)
    ensures NextVisibleGuarded(steps, data, from).None? ==>
      forall k :: from <= k < |steps| ==> !HasVisibleGuarded(steps[k], data)
  {
    if from < |steps| && !HasVisibleGuarded(steps[from], data) {
      NextVisibleGuardedIsFirst(steps, data, from + 1);
    }
  }

  /**
   * Whenever the continue handler decides there is a later step, the engine
   * also finds one, no later than that step: continuing then always moves
   * forward and never stays put.
   */
  lemma {:induction false} ContinueFindsStep(steps: seq<Step>, data: FormData, from: nat)
    requires NextVisibleGuarded(steps, data, from).Some?
    ensures NextVisible(steps, data, from).Some?
    ensures from <= NextVisible(steps, data, from).value <= NextVisibleGuarded(steps, data, from).value
    decreases |steps| - from
  {
    HasVisibleGuardedImplies(steps[from], data);
    NextVisibleGuardedIsFirst(steps, data, from);
    if !HasVisible(steps[from], data) {
      ContinueFindsStep(steps, data, from + 1);
    }
  }

  /**
   * The scan at the top of `handleContinue`: is there a step after `current`
   * that the handler's own filter finds non-empty?
   */
  method HasMoreSteps(steps: seq<Step>, formData: FormData, current: nat) returns (hasMoreSteps: bool)
    ensures hasMoreSteps <==> NextVisibleGuarded(steps, formData, current + 1).Some?
  {
    hasMoreSteps := false;
    var i := current + 1;
    while i < |steps|
      invariant current + 1 <= i
      invariant !hasMoreSteps
      invariant NextVisibleGuarded(steps, formData, current + 1) == NextVisibleGuarded(steps, formData, i)
      decreases |steps| - i
    {
      var nextStepVisibleQuestions := VisibleQuestionsGuarded(steps[i].questions, formData);
      if |nextStepVisibleQuestions| > 0 {
        hasMoreSteps := true;
        break;
      }
      i := i + 1;
    }
  }

  // ---------------------------------------------------------------------------
  // Row layout
  // ---------------------------------------------------------------------------

  /** `question.rowGroup || \`individual-${question.question_id}\``. */
  function RowKey(q: Question): string
  {
    match q.rowGroup
    case Some(g) => if g != "" then g else "individual-" + q.id
    case None => "individual-" + q.id
  }

  /** `groupedQuestions`: the visible questions in rows, one row per row key. */
  function RowGroups(visibleQuestions: seq<Question>): (rows: seq<Group<Question>>)
    ensures GroupedCorrectly(rows, visibleQuestions, RowKey)
  {
    GroupByCorrect(visibleQuestions, RowKey);
    GroupBy(visibleQuestions, RowKey)
  }

  /** Four questions whose row keys are `a`, `a`, `b`, `b` with `a != b` form two rows of two. */
  lemma TwoRowsOfTwo(qs: seq<Question>, a: string, b: string)
    requires |qs| == 4 && a != b
    requires RowKey(qs[0]) == a && RowKey(qs[1]) == a && RowKey(qs[2]) == b && RowKey(qs[3]) == b
    ensures GroupBy(qs, RowKey) == [Group(a, qs[..2]), Group(b, qs[2..])]
  {
    var g1 := [Group(a, [qs[0]])];
    assert qs[..1] == [qs[0]] && qs[..1][..0] == [];
    assert GroupBy(qs[..1], RowKey) == g1;
    var g2 := [Group(a, [qs[0], qs[1]])];
    assert qs[..2] == [qs[0], qs[1]] && qs[..2][..1] == qs[..1];
    assert FindGroup(g1, a) == Some(0);
    assert [qs[0]] + [qs[1]] == [qs[0], qs[1]];
    assert Insert(g1, a, qs[1]) == g2;
    assert GroupBy(qs[..2], RowKey) == Insert(GroupBy(qs[..1], RowKey), a, qs[1]);
    var g3 := g2 + [Group(b, [qs[2]])];
    assert qs[..3][..2] == qs[..2];
    assert FindGroup(g2[1..], b) == None;
    assert FindGroup(g2, b) == None;
    assert GroupBy(qs[..3], RowKey) == Insert(GroupBy(qs[..2], RowKey), b, qs[2]);
    assert qs[..4] == qs && qs[..4][..3] == qs[..3];
    assert FindGroup(g3[1..], b) == Some(0);
    assert FindGroup(g3, b) == Some(1);
    assert [qs[2]] + [qs[3]] == [qs[2], qs[3]];
    assert qs[2..] == [qs[2], qs[3]];
    assert g3[0] == Group(a, qs[..2]) && g3[1].items == [qs[2]];
    assert Insert(g3, b, qs[3]) == g3[1 := Group(b, [qs[2]] + [qs[3]])];
    assert g3[1 := Group(b, [qs[2], qs[3]])] == [g3[0], Group(b, [qs[2], qs[3]])];
    assert Insert(g3, b, qs[3]) == [Group(a, qs[..2]), Group(b, qs[2..])];
    assert GroupBy(qs, RowKey) == Insert(g3, b, qs[3]);
  }

  /** The location step is laid out as two rows of two dropdowns. */
  lemma LocationRows(lang: Language, total: int)
    ensures var qs := LocationStep(lang, total).questions;
      RowGroups(qs) == [Group("location-row-1", qs[..2]), Group("location-row-2", qs[2..])]
  {
    var qs := LocationStep(lang, total).questions;
    TwoRowsOfTwo(qs, "location-row-1", "location-row-2");
  }

  // ---------------------------------------------------------------------------
  // The screen's state
  // ---------------------------------------------------------------------------

  /** What the mobile-number existence check answered. */
  datatype CheckResult = Checked(found: bool) | CheckFailed(message: string)

  const MOBILE_CHECK_FAILED := "Failed to verify mobile number. Please try again."
  const SUBMIT_FAILED := "Failed to submit survey. Please try again."

  class Flow {
    const form: FormState
    var isLoading: bool
    var showDisclaimer: bool
    var consentGiven: bool
    var showConsentModal: bool
    var submitting: bool
    var submitError: Option<string>
    var mobileNumber: string
    var alreadySubmitted: bool
    var verifyingMobile: bool
    var mobileError: Option<string>
    /** The reference id and review flag kept in the shared form context. */
    var referenceId: string
    var showReview: bool

    constructor (form: FormState)
      ensures this.form == form
      ensures isLoading && !showDisclaimer && !consentGiven && !showConsentModal && !submitting
      ensures submitError == None && mobileNumber == "" && !alreadySubmitted && !verifyingMobile
      ensures mobileError == None && referenceId == "" && !showReview
    {
      this.form := form;
      isLoading := true;
      showDisclaimer := false;
      consentGiven := false;
      showConsentModal := false;
      submitting := false;
      submitError := None;
      mobileNumber := "";
      alreadySubmitted := false;
      verifyingMobile := false;
      mobileError := None;
      referenceId := "";
      showReview := false;
    }

    /** The mount effect: the disclaimer shows unless it was accepted in this browser session. */
    method Mount(disclaimerAccepted: bool)
      modifies this`showDisclaimer
      ensures showDisclaimer == (!disclaimerAccepted || old(showDisclaimer))
    {
      if !disclaimerAccepted {
        showDisclaimer := true;
      }
    }

    /** The mount timer fired. */
    method LoadTimerElapsed()
      modifies this`isLoading
      ensures !isLoading
    {
      isLoading := false;
    }

    /** `handleDisclaimerAccept`. */
    method AcceptDisclaimer()
      modifies this`showDisclaimer
      ensures !showDisclaimer
    {
      showDisclaimer := false;
    }

    /**
     * `handleMobileChange`: keep the digits; a value of at most 10 digits is
     * taken and clears the error, and exactly 10 digits starts the existence
     * check, whose argument is returned. Longer input changes nothing.
     */
    method HandleMobileChange(input: string) returns (check: Option<string>)
      modifies this`mobileNumber, this`mobileError, this`verifyingMobile
      ensures var v := StripNonDigits(input);
        if |v| <= 10 then
          mobileNumber == v && mobileError == None
          && (check.Some? <==> |v| == 10) && (check.Some? ==> check.value == v)
          && verifyingMobile == (|v| == 10 || old(verifyingMobile))
        else
          check == None && mobileNumber == old(mobileNumber) && mobileError == old(mobileError)
          && verifyingMobile == old(verifyingMobile)
    {
      var value := StripNonDigits(input);
      check := None;
      if |value| <= 10 {
        mobileNumber := value;
        mobileError := None;
        if |value| == 10 {
          verifyingMobile := true;
          mobileError := None;
          check := Some(value);
        }
      }
    }

    /** The existence check came back. */
    method CompleteMobileCheck(result: CheckResult)
      modifies this`alreadySubmitted, this`mobileError, this`verifyingMobile
      ensures alreadySubmitted == (result == Checked(true) || old(alreadySubmitted))
      ensures mobileError == match result
        case CheckFailed(m) => Some(if m != "" then m else MOBILE_CHECK_FAILED)
        case Checked(_) => old(mobileError)
      ensures !verifyingMobile
    {
      match result {
        case Checked(found) =>
          if found {
            alreadySubmitted := true;
          }
        case CheckFailed(m) =>
          mobileError := Some(if m != "" then m else MOBILE_CHECK_FAILED);
      }
      verifyingMobile := false;
    }

    /** `handleTryAgain`. */
    method HandleTryAgain()
      modifies this`alreadySubmitted, this`mobileNumber
      ensures !alreadySubmitted && mobileNumber == ""
    {
      alreadySubmitted := false;
      mobileNumber := "";
    }

    /** The screen the component renders now. */
    function CurrentScreen(): Screen
      reads this, form
    {
      ChooseScreen(Flags(
        isLoading || form.loading, showDisclaimer, verifyingMobile, alreadySubmitted,
        showReview, referenceId, form.CurrentStep().Some?))
    }

    /** The continue button of the step screen. */
    predicate CanContinue()
      reads this, form
      requires form.CurrentStep().Some?
    {
      ContinueEnabled(form.CurrentStep().value, form.formData, mobileNumber, verifyingMobile)
    }

    /**
     * `handleContinue`: scan the later steps with the handler's own filter;
     * with none left, open the review, otherwise let the engine move on.
     */
    method HandleContinue()
      modifies this`showReview, form`currentStepIndex
      ensures NextVisibleGuarded(form.steps, form.formData, old(form.currentStepIndex) + 1).None? ==>
        showReview && form.currentStepIndex == old(form.currentStepIndex)
      ensures NextVisibleGuarded(form.steps, form.formData, old(form.currentStepIndex) + 1).Some? ==>
        showReview == old(showReview)
        && NextVisible(form.steps, form.formData, old(form.currentStepIndex) + 1) == Some(form.currentStepIndex)
        && form.currentStepIndex > old(form.currentStepIndex)
    {
      var steps, formData, index := form.steps, form.formData, form.currentStepIndex;
      var hasMoreSteps := HasMoreSteps(steps, formData, index);
      if !hasMoreSteps {
        showReview := true;
      } else {
        ContinueFindsStep(steps, formData, index + 1);
        ghost var next := NextVisible(steps, formData, index + 1).value;
        form.GoToNextStep();
        assert form.steps == steps && form.formData == formData;
        assert form.currentStepIndex == next;
      }
    }

    /** Opening the consent dialog from the review page. */
    method OpenConsent()
      modifies this`showConsentModal
      ensures showConsentModal
    {
      showConsentModal := true;
    }

    /** Ticking or unticking the consent box. */
    method SetConsent(checked: bool)
      modifies this`consentGiven
      ensures consentGiven == checked
    {
      consentGiven := checked;
    }

    /** The review dialog's cancel button (disabled while submitting): it also withdraws consent. */
    method CancelConsent()
      requires !submitting
      modifies this`showConsentModal, this`consentGiven
      ensures !showConsentModal && !consentGiven
    {
      showConsentModal := false;
      consentGiven := false;
    }

    /** Closing a dialog, or the step screen dialog's cancel button: consent stays as it was. */
    method HideConsent()
      modifies this`showConsentModal
      ensures !showConsentModal
    {
      showConsentModal := false;
    }

    /** The review page's edit button. */
    method EditFromReview()
      modifies this`showReview
      ensures !showReview
    {
      showReview := false;
    }

    /** The submit button, enabled only with consent and no submission running, was pressed. */
    method BeginSubmit()
      requires consentGiven && !submitting
      modifies this`submitting, this`submitError
      ensures submitting && submitError == None
    {
      submitting := true;
      submitError := None;
    }

    /**
     * The submission finished with `response`. Acceptance stores the
     * reference id and closes the dialog and the review; a rejection only
     * records the error. The payload sent is returned.
     */
    method CompleteSubmit(response: SubmitResponse) returns (payload: Payload)
      requires submitting
      modifies this`referenceId, this`showConsentModal, this`showReview, this`submitError, this`submitting
      modifies form`referenceId
      ensures payload == BuildPayload(form.formData, mobileNumber)
      ensures response.Accepted? ==>
        referenceId == response.referenceId && !showConsentModal && !showReview
        && submitError == old(submitError) && form.referenceId == response.referenceId
      ensures response.Rejected? ==>
        referenceId == old(referenceId) && showConsentModal == old(showConsentModal) && showReview == old(showReview)
        && submitError == Some(if response.message != "" then response.message else SUBMIT_FAILED)
        && form.referenceId == old(form.referenceId)
      ensures !submitting
    {
      var result;
      payload, result := form.SubmitForm(mobileNumber, response);
      match result {
        case Accepted(refId, _) =>
          referenceId := refId;
          showConsentModal := false;
          showReview := false;
        case Rejected(m) =>
          submitError := Some(if m != "" then m else SUBMIT_FAILED);
      }
      submitting := false;
    }
  }
}
