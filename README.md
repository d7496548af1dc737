# Progressive survey form — a Dafny model

This project models the citizen survey front end: the progressive form engine
(the `useProgressiveForm` hook), the survey screen that drives it, the review
page, the two multi-choice field components, the mobile verification screen,
the admin invitation and password-creation forms, and the service-side
required-field check.

- `js.dfy` (`Js`): the JavaScript built-ins the code relies on, written out:
  `trim` with the ECMAScript white-space set, `replace(/\D/g, '')`,
  `parseInt` (sign, `0x` prefix, longest digit prefix, `NaN` as `None`),
  `String(number)`, `Array.join`, `Array.filter`.
- `survey.dfy` (`Survey`): answers (`Str` or `Many`), questions, steps,
  choice options, locations, the JavaScript truthiness of an answer and the
  review page's "has a value" test.
- `grouping.dfy` (`Grouping`): the "reduce into an object keyed by a string"
  pattern used twice, as a list of groups in order of first appearance, with
  its correctness proved once.
- `progressive_form.dfy` (`ProgressiveForm`): visibility, the location step
  and step renumbering, the district → revenue division → mandal → village
  cascade, the proceed check, the forward and backward scans, the payload,
  and the hook's state as the class `FormState`.
- `survey_form.dfy` (`SurveyFlow`): the screen choice, the continue rule,
  the continue handler's own scan, the row layout, and the screen's flags
  as the class `Flow`.
- `review_page.dfy`, `checkbox_group.dfy`, `chips_multi_select.dfy`,
  `mobile_verification.dfy`, `invite.dfy`, `create_password.dfy`,
  `form_service.dfy`: one module per remaining component or service.

Network requests, storage and timers are not modelled. Their results come in as
parameters: `SubmitResponse`, `CheckResult`, `SendOutcome`, `ActivationOutcome`,
the fetched location lists, and the `disclaimerAccepted` flag read from
session storage.

Where this model departs from an idealised description, it follows the code:
- The submission is not validated. A missing location answer is parsed as
  `parseInt("undefined")`, which is `NaN`; this is modelled as `None` and passed
  through.
- `goToNextStep` has no "no further step" signal. It leaves the index unchanged,
  and the switch to the review is the continue handler's separate scan.
- That scan also rejects a falsy answer. It differs from the hook's filter only
  when an allowed-values list contains `""`.
- `updateField` clears the lower location levels even when the value does not
  change.
- The fetched location lists are stored without any check that they are still
  current.

## Model

| member | source | states |
|---|---|---|
| Js.Trim | src/UI/Auth/Invite.tsx:41 | `trim()`: leading then trailing ECMAScript white space removed (stated by the two lemmas below and `TrimEmptyIffBlank`) |
| Js.TrimStartDropsLeadingSpace | src/UI/Auth/Invite.tsx:41 | `trimStart` removes exactly the leading run of white space: what remains is a suffix that starts with a non-space, and everything dropped was white space |
| Js.TrimEndDropsTrailingSpace | src/UI/Auth/Invite.tsx:41 | `trimEnd` removes exactly the trailing run of white space: what remains is a prefix that ends with a non-space, and everything dropped was white space |
| Js.TrimEmptyIffBlank | src/UI/Auth/Invite.tsx:41 | `trim()` yields `""` exactly when every character is ECMAScript white space |
| Js.StripNonDigits | src/UI/PreAuth/SurveyForm.tsx:93 | `replace(/\D/g, '')` leaves only decimal digits and never lengthens the input |
| Js.StripNonDigitsConcat | src/UI/PreAuth/SurveyForm.tsx:93 | stripping works character by character: it distributes over concatenation |
| Js.StripNonDigitsKeepsDigits | src/UI/PreAuth/MobileVerificationScreen.tsx:27-30 | a string of digits is left as it is, so re-filtering a stored number changes nothing |
| Js.ParseInt | src/hooks/useProgressiveForm.ts:357-360 | `parseInt(s)` with no radix: leading white space skipped, an optional sign, then a `0x` hex or decimal digit run; no digit gives NaN, here none (stated by `ParseIntUnsigned`, `ParseIntMinus`, `ParseIntOfIntToString`, `ParseMissingAnswer`) |
| Js.Join | src/hooks/useProgressiveForm.ts:357-360 | `xs.join(sep)`, which is `String(xs)` with a comma: what `parseInt` reads for a list answer |
| Js.ParseIntOfIntToString | src/hooks/useProgressiveForm.ts:103-109 | `parseInt(String(n))` gives back `n` for every integer id |
| Js.ParseIntUnsigned | src/hooks/useProgressiveForm.ts:357-360 | `parseInt` of a string starting with a digit is the magnitude read from its start |
| Js.ParseIntMinus | src/hooks/useProgressiveForm.ts:357-360 | a leading minus sign negates the magnitude `parseInt` reads after it |
| Js.Filter | src/hooks/useProgressiveForm.ts:203-216 | `filter` keeps exactly the elements satisfying the test, never more than the input |
| Js.FilterConcat | src/UI/PreAuth/ReviewPage.tsx:85-89 | filtering works piece by piece, so the original order is kept |
| Js.FilterKeepsAll | src/hooks/useProgressiveForm.ts:203-216 | a filter every element passes returns the list unchanged |
| Js.Without | src/shared/components/FormFields/CheckboxGroup.tsx:31 | `filter(v => v !== x)` removes every occurrence of `x` and keeps every other value |
| Js.WithoutAbsent | src/shared/components/FormFields/ChipsMultiSelect.tsx:25 | removing a value that is not there changes nothing |
| Js.WithoutConcat | src/shared/components/FormFields/ChipsMultiSelect.tsx:25 | removal distributes over concatenation, so the others keep their order |
| Js.WithoutIdempotent | src/shared/components/FormFields/CheckboxGroup.tsx:41 | removing a value twice is the same as removing it once |
| Survey.OptionValue | src/shared/components/FormFields/CheckboxGroup.tsx:51 | an option's value is its code if non-empty, else its value if non-empty, else its label |
| Survey.OptionValues | src/shared/components/FormFields/ChipsMultiSelect.tsx:21-37 | string options are their own values; object options resolve one by one, in order |
| Survey.Lookup | src/hooks/useProgressiveForm.ts:192 | reading `formData[id]` gives the stored answer, and undefined exactly when the key is missing (for ids that do not name an `Object.prototype` member; see Left out) |
| Survey.HasValueVersusTruthy | src/UI/PreAuth/ReviewPage.tsx:86-88 | a present answer is truthy; a truthy answer that is not present is exactly the empty list |
| Grouping.Insert | src/UI/PreAuth/ReviewPage.tsx:96-100 | one step of the reduce: push onto the group with the key, or open a new group `[x]` at the end (preserved invariant: `InsertCorrect`) |
| Grouping.GroupBy | src/UI/PreAuth/ReviewPage.tsx:95-102 | the whole reduce, used for both the review groups and the step screen rows (stated by `GroupByCorrect`) |
| Grouping.FindGroup | src/UI/PreAuth/ReviewPage.tsx:97 | `acc[key]` finds the group with that key, or none when no group has it |
| Grouping.WithKeySnoc | src/UI/PreAuth/ReviewPage.tsx:100 | pushing an element adds it to the end of its own key's group only |
| Grouping.WithKeyAbsent | src/UI/PreAuth/ReviewPage.tsx:97-99 | a key no element has has an empty group |
| Grouping.PushKeepsItems | src/UI/PreAuth/ReviewPage.tsx:100 | pushing an element onto its key's group leaves every group holding exactly its key's elements, in order |
| Grouping.PushKeepsCover | src/UI/PreAuth/ReviewPage.tsx:100 | after the push every element's key, the new one included, still has a group |
| Grouping.OpenKeepsItems | src/UI/PreAuth/ReviewPage.tsx:97-100 | opening a group `[x]` for an unseen key leaves every group holding exactly its key's elements |
| Grouping.OpenKeepsCover | src/UI/PreAuth/ReviewPage.tsx:97-100 | after opening the group every element's key, the new one included, has a group |
| Grouping.InsertExisting | src/UI/PreAuth/ReviewPage.tsx:100 | pushing onto an existing group keeps the grouping correct |
| Grouping.InsertNew | src/UI/PreAuth/ReviewPage.tsx:97-100 | creating a new group for an unseen key keeps the grouping correct |
| Grouping.InsertCorrect | src/UI/PreAuth/ReviewPage.tsx:95-102 | one reduce step keeps the grouping correct |
| Grouping.GroupByCorrect | src/UI/PreAuth/ReviewPage.tsx:95-102 | every element lands in exactly one group, the group of its key, in original relative order, and keys are distinct |
| ProgressiveForm.Visible | src/hooks/useProgressiveForm.ts:187-200 | `isQuestionVisible`: shown when there is no `visible_when`, otherwise when every prerequisite holds a text answer listed among its allowed values (its properties: `MissingOrListHides`, `VisibleReadsOnlyPrerequisites`) |
| ProgressiveForm.VisibleQuestions | src/hooks/useProgressiveForm.ts:207 | `questions.filter(isQuestionVisible)`: the visible questions of a step, in order (characterised by `HasVisibleIff` and `Js.Filter`) |
| ProgressiveForm.FormState.GetVisibleQuestions | src/hooks/useProgressiveForm.ts:203-216 | `getVisibleQuestions`: no questions without a current step, otherwise the current step's visible questions |
| ProgressiveForm.StepComplete | src/hooks/useProgressiveForm.ts:268-279 | `canProceed` on one step: every visible required question has an answer that is defined and not `""` or an empty list (stated by `StepCompleteIff`) |
| ProgressiveForm.FormState.CanProceed | src/hooks/useProgressiveForm.ts:268-279 | `canProceed` on the hook: `StepComplete` of the current step, and true with no current step |
| ProgressiveForm.NextVisible | src/hooks/useProgressiveForm.ts:283-305 | the forward scan of `goToNextStep`: the first step from `from` on with a visible question, or none (stated by `NextVisibleIsFirst`) |
| ProgressiveForm.PrevVisible | src/hooks/useProgressiveForm.ts:315-337 | the backward scan of `goToPreviousStep`: the last step up to `upto` with a visible question, or none (stated by `PrevVisibleIsLast`) |
| ProgressiveForm.ParseAnswer | src/hooks/useProgressiveForm.ts:357-360 | `parseInt(formData[id] as string)`: a missing answer parses `"undefined"`, a list parses its comma join, text parses as itself (see `ParseMissingAnswer`, `PayloadCarriesPickedIds`) |
| ProgressiveForm.HasVisibleIff | src/hooks/useProgressiveForm.ts:203-216 | a step shows something exactly when one of its questions is visible |
| ProgressiveForm.MissingOrListHides | src/hooks/useProgressiveForm.ts:187-200 | a prerequisite that is unanswered or answered with a list hides the question |
| ProgressiveForm.VisibleReadsOnlyPrerequisites | src/hooks/useProgressiveForm.ts:187-200 | visibility depends only on the answers to the prerequisites named in `visible_when` |
| ProgressiveForm.GuardedVisibility | src/UI/PreAuth/SurveyForm.tsx:280-290 | the continue handler's filter implies the hook's, and equals it when no allowed list holds `""` |
| ProgressiveForm.HasVisibleGuardedImplies | src/UI/PreAuth/SurveyForm.tsx:291 | a step the continue handler counts as showing something is one the hook shows too |
| ProgressiveForm.LocationStep | src/hooks/useProgressiveForm.ts:39-81 | the location step has id `LOCATION`, number 0, the given step count and four questions |
| ProgressiveForm.LocationStepQuestions | src/hooks/useProgressiveForm.ts:44-80 | its questions are district, revenue division, mandal and village in that order, each a required, always shown dropdown without options of its own, each depending on the one before |
| ProgressiveForm.BuildSteps | src/hooks/useProgressiveForm.ts:84-88 | location step first, then the schema steps with their content, each numbered by its position, and all with total `schema + 1` |
| ProgressiveForm.LocationOptions | src/hooks/useProgressiveForm.ts:103-109 | one option per location, captioned by its name, whose code parses back to its id |
| ProgressiveForm.Descendants | src/hooks/useProgressiveForm.ts:251-261 | the levels cleared below a field never include the field itself |
| ProgressiveForm.Cascade | src/hooks/useProgressiveForm.ts:244-265 | the new answer is stored, every lower location level is deleted, and no other key changes |
| ProgressiveForm.StepCompleteIff | src/hooks/useProgressiveForm.ts:268-279 | a step may be left exactly when every visible required question has a non-empty answer |
| ProgressiveForm.NextVisibleIsFirst | src/hooks/useProgressiveForm.ts:282-311 | the first step at or after `from` that shows something, or none when no later step does |
| ProgressiveForm.PrevVisibleIsLast | src/hooks/useProgressiveForm.ts:314-343 | the last step at or before `upto` that shows something, or none when no earlier step does |
| ProgressiveForm.ParseMissingAnswer | src/hooks/useProgressiveForm.ts:357-360 | a missing location answer is sent as `NaN` |
| ProgressiveForm.BuildPayload | src/hooks/useProgressiveForm.ts:349-363 | the answers are exactly the non-location, non-mobile entries with their values; the mobile number is the argument |
| ProgressiveForm.PayloadCarriesPickedIds | src/hooks/useProgressiveForm.ts:356-361 | a location chosen from the fetched options is sent as that location's id |
| ProgressiveForm.FormState.constructor | src/hooks/useProgressiveForm.ts:12-23 | the hook starts empty, at step 0, loading |
| ProgressiveForm.FormState.LoadSurveyData | src/hooks/useProgressiveForm.ts:102-110 | the steps are the built list, the districts the converted options, and loading ends |
| ProgressiveForm.FormState.LoadFailed | src/hooks/useProgressiveForm.ts:111-115 | a failed load records its message, or the default one, and loading ends |
| ProgressiveForm.FormState.CurrentStep | src/hooks/useProgressiveForm.ts:182-184 | there is a current step exactly when the index is inside the list |
| ProgressiveForm.FormState.GetFieldOptions | src/hooks/useProgressiveForm.ts:219-241 | location questions read their cached list; every other question its own options |
| ProgressiveForm.FormState.UpdateField | src/hooks/useProgressiveForm.ts:244-265 | the answers become the cascade of the old ones |
| ProgressiveForm.FormState.RevenueDivisionsEffect | src/hooks/useProgressiveForm.ts:121-139 | without a district the three lower lists are cleared; with one a fetch for it is asked for |
| ProgressiveForm.FormState.MandalsEffect | src/hooks/useProgressiveForm.ts:141-159 | without a revenue division the mandal and village lists are cleared; with one a fetch is asked for |
| ProgressiveForm.FormState.VillagesEffect | src/hooks/useProgressiveForm.ts:161-179 | without a mandal the village list is cleared; with one a fetch is asked for |
| ProgressiveForm.FormState.ApplyFetched | src/hooks/useProgressiveForm.ts:127-133 | a fetched list replaces exactly its own level's options, with no staleness check |
| ProgressiveForm.FormState.GoToNextStep | src/hooks/useProgressiveForm.ts:282-311 | the index moves to the next step that shows something, or stays; nothing else changes |
| ProgressiveForm.FormState.GoToPreviousStep | src/hooks/useProgressiveForm.ts:314-343 | the index moves to the previous step that shows something, or stays; nothing else changes |
| ProgressiveForm.FormState.SubmitForm | src/hooks/useProgressiveForm.ts:346-372 | the payload built from the answers is sent; an accepted response's reference id is stored |
| ProgressiveForm.FormState.ResetForm | src/hooks/useProgressiveForm.ts:375-379 | back to step 0 with no answers and no reference id |
| SurveyFlow.ChooseScreen | src/UI/PreAuth/SurveyForm.tsx:131-253 | the screen shown is the highest-priority one whose condition holds, in the order loading, disclaimer, verifying, already submitted, review, thank-you, loading survey, step |
| SurveyFlow.ContinueEnabled | src/UI/PreAuth/SurveyForm.tsx:485-489 | the continue button's enabling rule: the step can be left, on step 0 the mobile number has 10 characters, and no mobile check is running (stated by `ContinueEnabledIff`) |
| SurveyFlow.ContinueEnabledIff | src/UI/PreAuth/SurveyForm.tsx:485-489 | continue is enabled exactly when the step is complete, step 0 has a 10-character mobile number, and no check is running |
| SurveyFlow.NextVisibleGuarded | src/UI/PreAuth/SurveyForm.tsx:277-296 | the scan of `handleContinue` with its own truthiness-guarded filter: the first such step from `from` on, or none |
| SurveyFlow.NextVisibleGuardedIsFirst | src/UI/PreAuth/SurveyForm.tsx:277-296 | the first step at or after `from` that the handler's filter finds showing something |
| SurveyFlow.ContinueFindsStep | src/UI/PreAuth/SurveyForm.tsx:298-303 | when the handler finds a later step, the hook's scan finds one too, no further on |
| SurveyFlow.HasMoreSteps | src/UI/PreAuth/SurveyForm.tsx:276-296 | the loop's flag is set exactly when some later step shows something under the handler's filter |
| SurveyFlow.RowKey | src/UI/PreAuth/SurveyForm.tsx:266 | the row key: the question's row group, or a key of its own when it has none or an empty one |
| SurveyFlow.RowGroups | src/UI/PreAuth/SurveyForm.tsx:265-272 | the visible questions grouped into rows by row group, or one row each when they have none |
| SurveyFlow.TwoRowsOfTwo | src/UI/PreAuth/SurveyForm.tsx:265-272 | four questions keyed `a a b b` form two rows of two, in order |
| SurveyFlow.LocationRows | src/hooks/useProgressiveForm.ts:47-78 | the location step is laid out as two rows of two dropdowns |
| SurveyFlow.Flow.CurrentScreen | src/UI/PreAuth/SurveyForm.tsx:131-253 | the screen rendered now: `ChooseScreen` of the component's and the hook's flags |
| SurveyFlow.Flow.CanContinue | src/UI/PreAuth/SurveyForm.tsx:485-489 | the step screen's continue button: `ContinueEnabled` of the current step, answers, mobile number and check flag |
| SurveyFlow.Flow.constructor | src/UI/PreAuth/SurveyForm.tsx:24-35 | the screen's initial flags |
| SurveyFlow.Flow.Mount | src/UI/PreAuth/SurveyForm.tsx:54-61 | the disclaimer is shown unless it was accepted before |
| SurveyFlow.Flow.LoadTimerElapsed | src/UI/PreAuth/SurveyForm.tsx:62-64 | the initial spinner ends |
| SurveyFlow.Flow.AcceptDisclaimer | src/UI/PreAuth/SurveyForm.tsx:68-71 | the disclaimer is hidden |
| SurveyFlow.Flow.HandleMobileChange | src/UI/PreAuth/SurveyForm.tsx:92-103 | at most 10 digits are taken and clear the error; exactly 10 start the existence check; longer input changes nothing |
| SurveyFlow.Flow.CompleteMobileCheck | src/UI/PreAuth/SurveyForm.tsx:73-90 | a found number sets already-submitted; a failure records its message; verification ends |
| SurveyFlow.Flow.HandleTryAgain | src/UI/PreAuth/SurveyForm.tsx:105-108 | already-submitted is cleared and the mobile number emptied |
| SurveyFlow.Flow.HandleContinue | src/UI/PreAuth/SurveyForm.tsx:274-304 | with no later step to show, the review opens and the index stays; otherwise the index moves forward to the hook's next step |
| SurveyFlow.Flow.OpenConsent | src/UI/PreAuth/SurveyForm.tsx:160 | the review's submit opens the consent dialog |
| SurveyFlow.Flow.SetConsent | src/UI/PreAuth/SurveyForm.tsx:190 | the consent box sets consent |
| SurveyFlow.Flow.CancelConsent | src/UI/PreAuth/SurveyForm.tsx:196-198 | cancelling closes the dialog and withdraws consent |
| SurveyFlow.Flow.HideConsent | src/UI/PreAuth/SurveyForm.tsx:164 | closing the dialog keeps consent |
| SurveyFlow.Flow.EditFromReview | src/UI/PreAuth/SurveyForm.tsx:159 | editing leaves the review |
| SurveyFlow.Flow.BeginSubmit | src/UI/PreAuth/SurveyForm.tsx:110-112 | submission needs consent and no running submission, and clears the error |
| SurveyFlow.Flow.CompleteSubmit | src/UI/PreAuth/SurveyForm.tsx:113-124 | success stores the reference id and closes dialog and review; failure only records the error |
| ReviewPage.Flatten | src/UI/PreAuth/ReviewPage.tsx:29-42 | the tagged questions of all steps, in step order then question order (stated by `FlattenLength`, `FlattenAt`; `GetAllQuestions` is proved equal to it) |
| ReviewPage.Tagged | src/UI/PreAuth/ReviewPage.tsx:33-38 | each question of a step, in order, tagged with the step's title |
| ReviewPage.FlattenConcat | src/UI/PreAuth/ReviewPage.tsx:31-40 | the list of several step lists is their concatenation |
| ReviewPage.FlattenLength | src/UI/PreAuth/ReviewPage.tsx:29-42 | the list has as many entries as the steps have questions together |
| ReviewPage.FlattenAt | src/UI/PreAuth/ReviewPage.tsx:29-42 | question `j` of step `i` sits after the questions of the earlier steps, tagged with step `i`'s title |
| ReviewPage.FlattenSnoc | src/UI/PreAuth/ReviewPage.tsx:31-40 | one more step of the outer loop appends that step's tagged questions to the list |
| ReviewPage.GetAllQuestions | src/UI/PreAuth/ReviewPage.tsx:29-42 | the nested loops build exactly the step-ordered, question-ordered tagged list |
| ReviewPage.Matches | src/UI/PreAuth/ReviewPage.tsx:56-58 | an option matches an answer when its code, its value or its label equals it |
| ReviewPage.OptionsFor | src/UI/PreAuth/ReviewPage.tsx:47-50 | the question's own options when it has any, else the hook's field options |
| ReviewPage.FirstMatch | src/UI/PreAuth/ReviewPage.tsx:56-58 | the first option whose code, value or label equals the answer, or none |
| ReviewPage.OptionLabel | src/UI/PreAuth/ReviewPage.tsx:45-60 | the first matching option's label, or the answer itself when nothing matches |
| ReviewPage.FormatAnswer | src/UI/PreAuth/ReviewPage.tsx:63-80 | "not answered" exactly for a missing, empty-text or empty-list answer; otherwise the label, or one badge per item in order |
| ReviewPage.AnsweredQuestions | src/UI/PreAuth/ReviewPage.tsx:83-90 | `getAnsweredQuestions`: the tagged questions whose answer is defined, not `""` and not an empty list (stated by `AnsweredQuestionsExactly`, `AnsweredQuestionsConcat`) |
| ReviewPage.AnsweredQuestionsExactly | src/UI/PreAuth/ReviewPage.tsx:83-90 | the answered list keeps exactly the questions with a defined, non-empty answer |
| ReviewPage.AnsweredQuestionsConcat | src/UI/PreAuth/ReviewPage.tsx:83-90 | the answered list keeps the original order |
| ReviewPage.GroupByStepTitle | src/UI/PreAuth/ReviewPage.tsx:95-102 | every answered question lands in exactly its step's group, in order; there are no groups exactly when nothing was answered |
| CheckboxGroup.HandleCheckboxChange | src/shared/components/FormFields/CheckboxGroup.tsx:23-44 | checking "not a member" leaves only it; checking another removes it and appends the option; unchecking removes every occurrence |
| CheckboxGroup.IsDisabled | src/shared/components/FormFields/CheckboxGroup.tsx:55-62 | "not a member" is disabled while another value is selected; every other box while "not a member" is (used by `EnabledCheckKeepsSelection`) |
| CheckboxGroup.IsChecked | src/shared/components/FormFields/CheckboxGroup.tsx:70 | a box is ticked when its value is selected (used by `ChangeShowsOnBox`) |
| CheckboxGroup.CheckingIsExclusive | src/shared/components/FormFields/CheckboxGroup.tsx:25-38 | after checking any box, "not a member" never appears beside another value |
| CheckboxGroup.UncheckingKeepsExclusive | src/shared/components/FormFields/CheckboxGroup.tsx:29-41 | unchecking keeps an exclusive selection exclusive |
| CheckboxGroup.EnabledCheckKeepsSelection | src/shared/components/FormFields/CheckboxGroup.tsx:55-62 | checking an enabled box keeps every earlier value and adds the option |
| CheckboxGroup.ChangeShowsOnBox | src/shared/components/FormFields/CheckboxGroup.tsx:70 | after a change the box shows exactly the state it was set to |
| ChipsMultiSelect.Toggle | src/shared/components/FormFields/ChipsMultiSelect.tsx:23-29 | a present value is removed everywhere; an absent one is appended |
| ChipsMultiSelect.IsActive | src/shared/components/FormFields/ChipsMultiSelect.tsx:38 | a chip is highlighted when its value is selected (used by `ToggleFlipsActive`) |
| ChipsMultiSelect.ToggleFlipsActive | src/shared/components/FormFields/ChipsMultiSelect.tsx:38 | a toggle flips whether the chip is active |
| ChipsMultiSelect.ToggleTwice | src/shared/components/FormFields/ChipsMultiSelect.tsx:23-29 | toggling an absent value twice restores the list |
| ChipsMultiSelect.ToggleKeepsOthers | src/shared/components/FormFields/ChipsMultiSelect.tsx:23-29 | a toggle never reorders or drops the other values |
| MobileVerification.TenDigits | src/UI/PreAuth/MobileVerificationScreen.tsx:18 | `/^\d{10}$/`: exactly ten decimal digits |
| MobileVerification.SubmitDisabled | src/UI/PreAuth/MobileVerificationScreen.tsx:79 | the button's `disabled` expression: not 10 characters, or validating |
| MobileVerification.DisabledIffRefused | src/UI/PreAuth/MobileVerificationScreen.tsx:79 | on a digits-only number the button is disabled exactly when submission would be refused |
| MobileVerification.MobileVerificationScreen.constructor | src/UI/PreAuth/MobileVerificationScreen.tsx:9-11 | empty number, no error |
| MobileVerification.MobileVerificationScreen.HandleMobileChange | src/UI/PreAuth/MobileVerificationScreen.tsx:26-32 | at most 10 digits are taken and clear the error; the number stays digits-only and at most 10 long |
| MobileVerification.MobileVerificationScreen.HandleSubmit | src/UI/PreAuth/MobileVerificationScreen.tsx:13-24 | the number is passed on exactly when it is ten digits; otherwise the error is set |
| Invite.MatchesEmailPattern | src/UI/Auth/Invite.tsx:43 | `/^[^\s@]+@[^\s@]+\.[^\s@]+$/`: some split into a non-empty run, `@`, a non-empty run, `.`, a non-empty run, none holding white space or `@` (characterised by `EmailPatternIffShaped`) |
| Invite.PatternGivesShape | src/UI/Auth/Invite.tsx:43 | a string the email pattern matches has no white space, a single `@` not first, and a `.` after it with a character on both sides |
| Invite.ShapeGivesPattern | src/UI/Auth/Invite.tsx:43 | a string of that shape is matched by the email pattern |
| Invite.EmailPatternIffShaped | src/UI/Auth/Invite.tsx:43 | the email pattern matches exactly: no white space, one `@` not first, and a `.` after it with a character on both sides |
| Invite.ValidationErrors | src/UI/Auth/Invite.tsx:37-53 | email and mobile errors exactly in the blank, malformed and wrong-length cases, with their messages |
| Invite.ValidIff | src/UI/Auth/Invite.tsx:54-55 | the form passes exactly when the email is non-blank and email-shaped and the mobile is non-blank with ten characters |
| Invite.TenDigitsPass | src/UI/Auth/Invite.tsx:48-52 | ten digits always pass the mobile check |
| Invite.BlankForm | src/UI/Auth/Invite.tsx:6-12 | all five fields, empty |
| Invite.MobileEntryOk | src/UI/Auth/Invite.tsx:22-26 | what the mobile field can hold: at most ten digits (kept by `InviteForm.HandleChange`) |
| Invite.InviteForm.constructor | src/UI/Auth/Invite.tsx:6-16 | empty fields, no errors or messages |
| Invite.InviteForm.HandleChange | src/UI/Auth/Invite.tsx:18-35 | mobile takes the digits only when at most 10; other fields take the input; only this field's error clears |
| Invite.InviteForm.ValidateForm | src/UI/Auth/Invite.tsx:37-56 | the errors are recorded and the result is whether there are none |
| Invite.InviteForm.HandleSubmit | src/UI/Auth/Invite.tsx:58-86 | an invalid form sends nothing; a sent form is the current fields; delivery resets all five fields, failure keeps them |
| CreatePassword.InviteIdFrom | src/UI/Auth/CreatePassword.tsx:9-12 | a missing invite parameter reads as empty |
| CreatePassword.ValidationErrors | src/UI/Auth/CreatePassword.tsx:35-50 | invite, password and confirmation errors exactly in their cases, with their messages |
| CreatePassword.ValidIff | src/UI/Auth/CreatePassword.tsx:37-53 | the form passes exactly when the invite id is non-empty, the password has 8 characters or more and the confirmation equals it |
| CreatePassword.FailureMessage | src/UI/Auth/CreatePassword.tsx:78-87 | the message recorded when activation fails: the response's `message`, else its `error`, else "Activation failed"; a failed request gives its own message |
| CreatePassword.CreatePasswordForm.constructor | src/UI/Auth/CreatePassword.tsx:9-20 | the invite id from the link, empty fields, no errors |
| CreatePassword.CreatePasswordForm.HandleChange | src/UI/Auth/CreatePassword.tsx:25-33 | only the named field changes, and only its error clears |
| CreatePassword.CreatePasswordForm.ValidateForm | src/UI/Auth/CreatePassword.tsx:35-53 | the errors are recorded and the result is whether there are none |
| CreatePassword.CreatePasswordForm.HandleSubmit | src/UI/Auth/CreatePassword.tsx:55-91 | activation is attempted exactly when the form passes; success navigates, failure records its message against the invite id |
| FormService.ValidateFormData | src/services/formService.ts:318-336 | an age-group error exactly when the age group is falsy, a village error exactly when the village is falsy, in that order; valid exactly when there are none |

## Left out

- Network requests are not modelled: survey loading, location fetches, the mobile check, submission, invitation, activation. Their outcomes are parameters.
- The effects' asynchronous fetch branches are reduced to the `Fetch` request they make plus `ApplyFetched`. Request interleaving is not modelled.
- Language changes re-running the effects are not modelled. The language is a parameter of `LoadSurveyData`.
- Survey.Lookup, SurveyFlow.RowGroups, ReviewPage.GroupByStepTitle: question ids, step titles and row groups that name `Object.prototype` members (`constructor`, `toString`, `__proto__`, `hasOwnProperty`, ...) are not modelled. The source keeps answers and groups in plain `{}` objects, so for such a key the lookup sees the inherited member instead of `undefined` (and `canProceed` counts the question as answered), and the grouping reduce finds a truthy `acc[key]` and throws when it calls `push`. The model treats every key as an ordinary map key.
- Object key enumeration order is not modelled. JavaScript lists integer-like keys first; the payload's answers are a map, and the groups use first-appearance order.
- String length is counted in characters, not UTF-16 code units.
- `parseInt` has no floating-point rounding: ids beyond 2^53 are exact here.
- The progress percentage is not modelled (floating point).
- The 1.5 s load timer is modelled only as the `LoadTimerElapsed` event; session storage only as `Mount`'s flag.
- The mock reference id generator is not modelled (randomness).
- The review page's effect that re-applies answers to a second hook instance is not modelled, nor any logging.
- Rendering is not modelled: the JSX layout, translations and the password visibility toggles.
- The "submitting" state between `BeginSubmit` and `CompleteSubmit` exists in the model. Renders during that interval are not modelled.
- ProgressiveForm.FormState.GoToPreviousStep: an index beyond the end of the list, where the source would throw reading a missing step, is modelled as leaving the index unchanged.
- ProgressiveForm.FormState.LoadSurveyData: the schema's own `step_number` and `total_steps` are overwritten, as in the source. Malformed schemas are not modelled.
