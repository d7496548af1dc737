/**
 * The progressive survey-form engine (the `useProgressiveForm` hook): which
 * questions are visible, the location step put in front of the schema
 * steps, the district -> revenue division -> mandal -> village cascade, the
 * "can proceed" test, navigation that skips steps with nothing to show, and
 * the submission payload. The pure parts are functions; the hook's state is
 * the class `FormState`, whose methods are the hook's state-changing
 * callbacks and effects.
 */
module ProgressiveForm {
  import opened Js
  import opened Survey

  // ---------------------------------------------------------------------------
  // Visibility
  // ---------------------------------------------------------------------------

  /**
   * `allowedValues.includes(formData[id] as string)`: the answer is a string
   * in the list; a missing answer or an array never matches.
   */
  predicate Allows(data: FormData, id: string, allowed: seq<string>)
  {
    id in data && data[id].Str? && data[id].text in allowed
  }

  /** `isQuestionVisible`: no condition, or every prerequisite allows it. */
  predicate Visible(q: Question, data: FormData)
  {
    match q.visibleWhen
    case None => true
    case Some(cond) => forall id :: id in cond ==> Allows(data, id, cond[id])
  }

  /** `questions.filter(isQuestionVisible)`. */
  function VisibleQuestions(qs: seq<Question>, data: FormData): seq<Question>
  {
    Filter(qs, q => Visible(q, data))
  }

  /** The step shows at least one question. */
  predicate HasVisible(step: Step, data: FormData)
  {
    |VisibleQuestions(step.questions, data)| > 0
  }

  lemma {:induction false} HasVisibleIff(qs: seq<Question>, data: FormData)
    ensures |VisibleQuestions(qs, data)| > 0 <==> exists i :: 0 <= i < |qs| && Visible(qs[i], data)
  {
    var r := VisibleQuestions(qs, data);
    if |r| > 0 {
      assert r[0] in qs && Visible(r[0], data);
    }
  }

  /** A prerequisite that is unanswered, or answered with a list, hides the question. */
  lemma MissingOrListHides(q: Question, data: FormData, id: string)
    requires q.visibleWhen.Some? && id in q.visibleWhen.value
    requires id !in data || data[id].Many?
    ensures !Visible(q, data)
  {
    assert !Allows(data, id, q.visibleWhen.value[id]);
  }

  /**
   * Visibility reads only the prerequisites: two answer maps that agree on
   * them give the same verdict, so answering anything else never shows or
   * hides the question.
   */
  lemma VisibleReadsOnlyPrerequisites(q: Question, d1: FormData, d2: FormData)
    requires q.visibleWhen.Some?
    requires forall id :: id in q.visibleWhen.value ==> Lookup(d1, id) == Lookup(d2, id)
    ensures Visible(q, d1) <==> Visible(q, d2)
  {
    var cond := q.visibleWhen.value;
    if Visible(q, d1) {
      forall id | id in cond ensures Allows(d2, id, cond[id]) {
        assert Lookup(d1, id) == Lookup(d2, id);
      }
    }
    if Visible(q, d2) {
      forall id | id in cond ensures Allows(d1, id, cond[id]) {
        assert Lookup(d1, id) == Lookup(d2, id);
      }
    }
  }

  /**
   * The copy of the filter inside the step screen's continue handler also
   * rejects a falsy answer (`!currentValue || ...`), so `""` never matches.
   */
  predicate AllowsGuarded(data: FormData, id: string, allowed: seq<string>)
  {
    Truthy(Lookup(data, id)) && Allows(data, id, allowed)
  }

  predicate VisibleGuarded(q: Question, data: FormData)
  {
    match q.visibleWhen
    case None => true
    case Some(cond) => forall id :: id in cond ==> AllowsGuarded(data, id, cond[id])
  }

  function VisibleQuestionsGuarded(qs: seq<Question>, data: FormData): seq<Question>
  {
    Filter(qs, q => VisibleGuarded(q, data))
  }

  predicate HasVisibleGuarded(step: Step, data: FormData)
  {
    |VisibleQuestionsGuarded(step.questions, data)| > 0
  }

  /**
   * The guarded copy is never looser than the hook's filter, and the two
   * agree unless some allowed-values list contains the empty string.
   */
  lemma GuardedVisibility(q: Question, data: FormData)
    ensures VisibleGuarded(q, data) ==> Visible(q, data)
    ensures q.visibleWhen.Some? && (forall id :: id in q.visibleWhen.value ==> "" !in q.visibleWhen.value[id])
            ==> (VisibleGuarded(q, data) <==> Visible(q, data))
  {
    if q.visibleWhen.Some? {
      var cond := q.visibleWhen.value;
      if VisibleGuarded(q, data) {
        forall id | id in cond ensures Allows(data, id, cond[id]) {
          assert AllowsGuarded(data, id, cond[id]);
        }
      }
      if (forall id :: id in cond ==> "" !in cond[id]) && Visible(q, data) {
        forall id | id in cond ensures AllowsGuarded(data, id, cond[id]) {
          assert Allows(data, id, cond[id]);
        }
      }
    }
  }

  lemma {:induction false} HasVisibleGuardedImplies(step: Step, data: FormData)
    ensures HasVisibleGuarded(step, data) ==> HasVisible(step, data)
  {
    var g := VisibleQuestionsGuarded(step.questions, data);
    if |g| > 0 {
      GuardedVisibility(g[0], data);
      assert g[0] in step.questions && Visible(g[0], data);
      HasVisibleIff(step.questions, data);
    }
  }

  // ---------------------------------------------------------------------------
  // The step list: the location step, then the schema steps renumbered
  // ---------------------------------------------------------------------------

  function LocationQuestion(id: string, caption: string, rowGroup: string, dependsOn: Option<string>): Question
  {
    Question(id, caption, Dropdown, true, None, [], Some(rowGroup), dependsOn)
  }

  /** The location step, with its captions in the selected language. */
  function LocationStep(lang: Language, total: int): (s: Step)
    ensures s.stepId == "LOCATION" && s.stepNumber == 0 && s.totalSteps == total
    ensures |s.questions| == 4
  {
    var te := lang == Te;
    var questions := [
      LocationQuestion(DISTRICT, if te then "జిల్లా" else "District", "location-row-1", None),
      LocationQuestion(REVENUE_DIVISION, if te then "రెవిన్యూ విభాగం" else "Revenue Division", "location-row-1", Some(DISTRICT)),
      LocationQuestion(MANDAL, if te then "మండలం" else "Mandal", "location-row-2", Some(REVENUE_DIVISION)),
      LocationQuestion(VILLAGE, if te then "గ్రామం/పట్టణం" else "Village/Town", "location-row-2", Some(MANDAL)) ];
    Step("LOCATION", if te then "ప్రాంత సమాచారం" else "Location Information", 0, total, questions)
  }

  /**
   * The location step asks for district, revenue division, mandal and
   * village, in that order, each a required dropdown that is always shown,
   * whose options come from the cascade, and each depending on the one before.
   */
  lemma LocationStepQuestions(lang: Language, total: int)
    ensures var qs := LocationStep(lang, total).questions;
      && qs[0].id == DISTRICT && qs[1].id == REVENUE_DIVISION && qs[2].id == MANDAL && qs[3].id == VILLAGE
      && (forall i :: 0 <= i < 4 ==>
            qs[i].required && qs[i].inputType == Dropdown && qs[i].visibleWhen == None && qs[i].options == [])
      && qs[0].dependsOn == None
      && (forall i :: 1 <= i < 4 ==> qs[i].dependsOn == Some(qs[i - 1].id))
  {
  }

  /** `[locationStep, ...schemaSteps.map((step, idx) => ({...step, step_number: idx + 1, total_steps}))]`. */
  function BuildSteps(schema: seq<Step>, lang: Language): (steps: seq<Step>)
    ensures |steps| == |schema| + 1
    ensures steps[0] == LocationStep(lang, |schema| + 1)
    ensures forall i :: 0 <= i < |schema| ==>
      steps[i + 1].stepId == schema[i].stepId && steps[i + 1].title == schema[i].title
      && steps[i + 1].questions == schema[i].questions
    ensures forall i :: 0 <= i < |steps| ==> steps[i].stepNumber == i && steps[i].totalSteps == |steps|
  {
    var total := |schema| + 1;
    var renumbered := seq(|schema|, i requires 0 <= i < |schema| => schema[i].(stepNumber := i + 1, totalSteps := total));
    var steps := [LocationStep(lang, total)] + renumbered;
    assert forall i :: 0 <= i < |schema| ==> steps[i + 1] == renumbered[i];
    steps
  }

  /** `list.map(d => ({ code: d.id.toString(), label: d.name }))`. */
  function LocationOptions(list: seq<Location>): (opts: seq<ChoiceOption>)
    ensures |opts| == |list|
    ensures forall i :: 0 <= i < |list| ==>
      opts[i].code.Some? && opts[i].value == None && opts[i].caption == list[i].name
      && ParseInt(opts[i].code.value) == Some(list[i].id)
  {
    var opts := seq(|list|, i requires 0 <= i < |list| => ChoiceOption(Some(IntToString(list[i].id)), None, list[i].name));
    assert forall i :: 0 <= i < |list| ==> ParseInt(opts[i].code.value) == Some(list[i].id) by {
      forall i | 0 <= i < |list| ensures ParseInt(opts[i].code.value) == Some(list[i].id) {
        ParseIntOfIntToString(list[i].id);
      }
    }
    opts
  }

  // ---------------------------------------------------------------------------
  // The location cascade
  // ---------------------------------------------------------------------------

  /** The levels below a location level, which `updateField` deletes. */
  function Descendants(id: string): (ds: set<string>)
    ensures id !in ds
  {
    if id == DISTRICT then {REVENUE_DIVISION, MANDAL, VILLAGE}
    else if id == REVENUE_DIVISION then {MANDAL, VILLAGE}
    else if id == MANDAL then {VILLAGE}
    else {}
  }

  /**
   * `updateField(id, v)` on the answer map: `id` gets `v`, the deeper
   * location levels are deleted (even when `v` equals the old answer), and
   * every other key keeps its answer.
   */
  function Cascade(data: FormData, id: string, v: Answer): (r: FormData)
    ensures id in r && r[id] == v
    ensures forall k :: k in Descendants(id) ==> k !in r
    ensures forall k :: k != id && k !in Descendants(id) ==> Lookup(r, k) == Lookup(data, k)
  {
    data[id := v] - Descendants(id)
  }

  // ---------------------------------------------------------------------------
  // canProceed
  // ---------------------------------------------------------------------------

  /** `visibleQuestions.filter(q => q.required)`. */
  function RequiredVisible(qs: seq<Question>, data: FormData): seq<Question>
  {
    Filter(VisibleQuestions(qs, data), (q: Question) => q.required)
  }

  predicate AllAnswered(qs: seq<Question>, data: FormData)
  {
    forall i :: 0 <= i < |qs| ==> HasValue(Lookup(data, qs[i].id))
  }

  /** `canProceed` on one step's questions. */
  predicate StepComplete(qs: seq<Question>, data: FormData)
  {
    AllAnswered(RequiredVisible(qs, data), data)
  }

  /**
   * A step can be left exactly when every visible required question has a
   * non-empty answer; hidden and optional questions never hold it back.
   */
  lemma StepCompleteIff(qs: seq<Question>, data: FormData)
    ensures StepComplete(qs, data) <==>
      forall i :: 0 <= i < |qs| && Visible(qs[i], data) && qs[i].required ==> HasValue(Lookup(data, qs[i].id))
  {
    var vis := VisibleQuestions(qs, data);
    var req := RequiredVisible(qs, data);
    if StepComplete(qs, data) {
      forall i | 0 <= i < |qs| && Visible(qs[i], data) && qs[i].required
        ensures HasValue(Lookup(data, qs[i].id))
      {
        assert qs[i] in vis;
        var j :| 0 <= j < |vis| && vis[j] == qs[i];
        assert qs[i] in req;
        var k :| 0 <= k < |req| && req[k] == qs[i];
      }
    }
    if forall i :: 0 <= i < |qs| && Visible(qs[i], data) && qs[i].required ==> HasValue(Lookup(data, qs[i].id)) {
      forall k | 0 <= k < |req| ensures HasValue(Lookup(data, req[k].id)) {
        assert req[k] in vis && req[k].required;
        var j :| 0 <= j < |vis| && vis[j] == req[k];
        assert vis[j] in qs && Visible(vis[j], data);
        var i :| 0 <= i < |qs| && qs[i] == vis[j];
      }
    }
  }

  // ---------------------------------------------------------------------------
  // Skipping navigation
  // ---------------------------------------------------------------------------

  /** The first step at or after `from` that shows a question. */
  function NextVisible(steps: seq<Step>, data: FormData, from: nat): Option<nat>
    decreases |steps| - from
  {
    if from >= |steps| then None
    else if HasVisible(steps[from], data) then Some(from)
    else NextVisible(steps, data, from + 1)
  }

  /**
   * The step found is the first at or after `from` that shows a question;
   * none is found exactly when no later step shows one.
   */
  lemma {:induction false} NextVisibleIsFirst(steps: seq<Step>, data: FormData, from: nat)
    decreases |steps| - from
    ensures var r := NextVisible(steps, data, from);
      r.Some? ==>
        from <= r.value < |steps| && HasVisible(steps[r.value], data)
        && forall k :: from <= k < r.value ==> !HasVisible(steps[k], data)
    ensures NextVisible(steps, data, from).None? ==>
      forall k :: from <= k < |steps| ==> !HasVisible(steps[k], data)
  {
    if from < |steps| && !HasVisible(steps[from], data) {
      NextVisibleIsFirst(steps, data, from + 1);
    }
  }

  /** The last step at or before `upto` that shows a question. */
  function PrevVisible(steps: seq<Step>, data: FormData, upto: int): Option<nat>
    requires -1 <= upto < |steps|
    decreases upto + 1
  {
    if upto < 0 then None
    else if HasVisible(steps[upto], data) then Some(upto)
    else PrevVisible(steps, data, upto - 1)
  }

  /**
   * The step found is the last at or before `upto` that shows a question;
   * none is found exactly when no earlier step shows one.
   */
  lemma {:induction false} PrevVisibleIsLast(steps: seq<Step>, data: FormData, upto: int)
    requires -1 <= upto < |steps|
    decreases upto + 1
    ensures var r := PrevVisible(steps, data, upto);
      r.Some? ==>
        r.value <= upto && HasVisible(steps[r.value], data)
        && forall k :: r.value < k <= upto ==> !HasVisible(steps[k], data)
    ensures PrevVisible(steps, data, upto).None? ==>
      forall k :: 0 <= k <= upto ==> !HasVisible(steps[k], data)
  {
    if upto >= 0 && !HasVisible(steps[upto], data) {
      PrevVisibleIsLast(steps, data, upto - 1);
      var r := PrevVisible(steps, data, upto - 1);
      assert PrevVisible(steps, data, upto) == r;
      if r.Some? {
        assert forall k :: r.value < k <= upto ==> k == upto || !HasVisible(steps[k], data);
      } else {
        assert forall k :: 0 <= k <= upto ==> k == upto || !HasVisible(steps[k], data);
      }
    }
  }

  // ---------------------------------------------------------------------------
  // The submission payload
  // ---------------------------------------------------------------------------

  /** `SurveySubmissionRequest`; an id that parses to NaN is `None`. */
  datatype Payload = Payload(
    district: Option<int>,
    division: Option<int>,
    mandal: Option<int>,
    village: Option<int>,
    mobileNumber: string,
    answers: map<string, Answer>)

  /** Keys kept out of `answers`. */
  const EXCLUDED: set<string> := {DISTRICT, REVENUE_DIVISION, MANDAL, VILLAGE, "mobile"}

  /**
   * `parseInt(formData[id] as string)`. `parseInt` first converts its
   * argument to a string: an array becomes its items joined with commas and
   * `undefined` becomes "undefined".
   */
  function ParseAnswer(a: Option<Answer>): Option<int>
  {
    match a
    case None => ParseInt("undefined")
    case Some(Str(s)) => ParseInt(s)
    case Some(Many(xs)) => ParseInt(Join(xs, ","))
  }

  /** A missing location answer is sent as NaN: nothing checks for it first. */
  lemma ParseMissingAnswer()
    ensures ParseAnswer(None) == None
  {
    var s := "undefined";
    assert !IsSpace(s[0]);
    assert TrimStart(s) == s;
    assert DigitPrefix(s, false) == [];
  }

  /** The request body `submitForm` sends. */
  function BuildPayload(data: FormData, mobile: string): (p: Payload)
    ensures p.answers.Keys == data.Keys - EXCLUDED
    ensures forall k :: k in p.answers ==> p.answers[k] == data[k]
    ensures p.mobileNumber == mobile
  {
    Payload(
      ParseAnswer(Lookup(data, DISTRICT)),
      ParseAnswer(Lookup(data, REVENUE_DIVISION)),
      ParseAnswer(Lookup(data, MANDAL)),
      ParseAnswer(Lookup(data, VILLAGE)),
      mobile,
      map k | k in data && k !in EXCLUDED :: data[k])
  }

  /**
   * A location answer picked from a list the engine built carries the code
   * `id.toString()`, and the payload sends that `id` back.
   */
  lemma PayloadCarriesPickedIds(data: FormData, mobile: string, level: string, list: seq<Location>, i: nat)
    requires level in {DISTRICT, REVENUE_DIVISION, MANDAL, VILLAGE}
    requires i < |list|
    requires Lookup(data, level) == Some(Str(LocationOptions(list)[i].code.value))
    ensures var p := BuildPayload(data, mobile);
      (if level == DISTRICT then p.district
       else if level == REVENUE_DIVISION then p.division
       else if level == MANDAL then p.mandal
       else p.village) == Some(list[i].id)
  {
  }

  // ---------------------------------------------------------------------------
  // The hook's state
  // ---------------------------------------------------------------------------

  /** What the synchronous part of a location effect did. */
  datatype Effect = Cleared | Fetch(parentId: Option<int>)

  /** The lists that a location fetch fills. */
  datatype Level = RevenueDivisions | Mandals | Villages

  /** What the submission endpoint answered. */
  datatype SubmitResponse = Accepted(referenceId: string, createdAt: string) | Rejected(message: string)

  class FormState {
    var formData: FormData
    var currentStepIndex: nat
    var steps: seq<Step>
    var districts: seq<ChoiceOption>
    var revenueDivisions: seq<ChoiceOption>
    var mandals: seq<ChoiceOption>
    var villages: seq<ChoiceOption>
    var referenceId: string
    var loading: bool
    var error: Option<string>

    constructor ()
      ensures formData == map[] && currentStepIndex == 0 && steps == []
      ensures districts == [] && revenueDivisions == [] && mandals == [] && villages == []
      ensures referenceId == "" && loading && error == None
    {
      formData := map[];
      currentStepIndex := 0;
      steps := [];
      districts, revenueDivisions, mandals, villages := [], [], [], [];
      referenceId := "";
      loading := true;
      error := None;
    }

    /** The schema and district list arrived: install the step list and the districts. */
    method LoadSurveyData(lang: Language, schema: seq<Step>, districtList: seq<Location>)
      modifies this`steps, this`districts, this`loading
      ensures steps == BuildSteps(schema, lang)
      ensures districts == LocationOptions(districtList)
      ensures !loading
    {
      steps := BuildSteps(schema, lang);
      districts := LocationOptions(districtList);
      loading := false;
    }

    /** The schema or district fetch failed. */
    method LoadFailed(message: string)
      modifies this`error, this`loading
      ensures error == Some(if message != "" then message else "Failed to load survey")
      ensures !loading
    {
      error := Some(if message != "" then message else "Failed to load survey");
      loading := false;
    }

    /** `steps[currentStepIndex]`, `undefined` past the end. */
    function CurrentStep(): (s: Option<Step>)
      reads this
      ensures s.Some? <==> currentStepIndex < |steps|
    {
      if currentStepIndex < |steps| then Some(steps[currentStepIndex]) else None
    }

    /** `getVisibleQuestions`. */
    function GetVisibleQuestions(): seq<Question>
      reads this
    {
      match CurrentStep()
      case None => []
      case Some(s) => VisibleQuestions(s.questions, formData)
    }

    /** `getFieldOptions`: the cached list for a location level, else the question's own options. */
    function GetFieldOptions(q: Question): (opts: seq<ChoiceOption>)
      reads this
      ensures q.id == DISTRICT ==> opts == districts
      ensures q.id == REVENUE_DIVISION ==> opts == revenueDivisions
      ensures q.id == MANDAL ==> opts == mandals
      ensures q.id == VILLAGE ==> opts == villages
      ensures q.id !in {DISTRICT, REVENUE_DIVISION, MANDAL, VILLAGE} ==> opts == q.options
    {
      if q.id == DISTRICT then districts
      else if q.id == REVENUE_DIVISION then revenueDivisions
      else if q.id == MANDAL then mandals
      else if q.id == VILLAGE then villages
      else q.options
    }

    /** `canProceed`: with no current step there is nothing to block. */
    predicate CanProceed()
      reads this
    {
      match CurrentStep()
      case None => true
      case Some(s) => StepComplete(s.questions, formData)
    }

    /** `updateField`. */
    method UpdateField(id: string, value: Answer)
      modifies this`formData
      ensures formData == Cascade(old(formData), id, value)
    {
      var newData := formData[id := value];
      if id == DISTRICT {
        newData := newData - {REVENUE_DIVISION} - {MANDAL} - {VILLAGE};
      } else if id == REVENUE_DIVISION {
        newData := newData - {MANDAL} - {VILLAGE};
      } else if id == MANDAL {
        newData := newData - {VILLAGE};
      }
      formData := newData;
    }

    /**
     * The revenue-division effect, run when `district` changes: an empty
     * district clears the three lists below it; otherwise the lists stay as
     * they are and a fetch goes out for the parsed district id.
     */
    method RevenueDivisionsEffect() returns (e: Effect)
      modifies this`revenueDivisions, this`mandals, this`villages
      ensures !Truthy(Lookup(formData, DISTRICT)) ==>
        e == Cleared && revenueDivisions == [] && mandals == [] && villages == []
      ensures Truthy(Lookup(formData, DISTRICT)) ==>
        e == Fetch(ParseAnswer(Lookup(formData, DISTRICT)))
        && revenueDivisions == old(revenueDivisions) && mandals == old(mandals) && villages == old(villages)
    {
      var districtId := Lookup(formData, DISTRICT);
      if Truthy(districtId) {
        e := Fetch(ParseAnswer(districtId));
      } else {
        revenueDivisions, mandals, villages := [], [], [];
        e := Cleared;
      }
    }

    /** The mandal effect, run when `revenueDivision` changes. */
    method MandalsEffect() returns (e: Effect)
      modifies this`mandals, this`villages
      ensures !Truthy(Lookup(formData, REVENUE_DIVISION)) ==> e == Cleared && mandals == [] && villages == []
      ensures Truthy(Lookup(formData, REVENUE_DIVISION)) ==>
        e == Fetch(ParseAnswer(Lookup(formData, REVENUE_DIVISION)))
        && mandals == old(mandals) && villages == old(villages)
    {
      var divisionId := Lookup(formData, REVENUE_DIVISION);
      if Truthy(divisionId) {
        e := Fetch(ParseAnswer(divisionId));
      } else {
        mandals, villages := [], [];
        e := Cleared;
      }
    }

    /** The village effect, run when `mandal` changes. */
    method VillagesEffect() returns (e: Effect)
      modifies this`villages
      ensures !Truthy(Lookup(formData, MANDAL)) ==> e == Cleared && villages == []
      ensures Truthy(Lookup(formData, MANDAL)) ==>
        e == Fetch(ParseAnswer(Lookup(formData, MANDAL))) && villages == old(villages)
    {
      var mandalId := Lookup(formData, MANDAL);
      if Truthy(mandalId) {
        e := Fetch(ParseAnswer(mandalId));
      } else {
        villages := [];
        e := Cleared;
      }
    }

    /**
     * A location fetch resolved: its list replaces the cached one whatever
     * the parent answer is by now (there is no check for stale responses).
     */
    method ApplyFetched(level: Level, list: seq<Location>)
      modifies this`revenueDivisions, this`mandals, this`villages
      ensures revenueDivisions == if level == RevenueDivisions then LocationOptions(list) else old(revenueDivisions)
      ensures mandals == if level == Mandals then LocationOptions(list) else old(mandals)
      ensures villages == if level == Villages then LocationOptions(list) else old(villages)
    {
      match level
      case RevenueDivisions => revenueDivisions := LocationOptions(list);
      case Mandals => mandals := LocationOptions(list);
      case Villages => villages := LocationOptions(list);
    }

    /**
     * `goToNextStep`: move to the first later step that shows a question;
     * when there is none, stay put. Answers are not touched.
     */
    method GoToNextStep()
      modifies this`currentStepIndex
      ensures currentStepIndex == match NextVisible(steps, formData, old(currentStepIndex) + 1)
        case Some(j) => j
        case None => old(currentStepIndex)
    {
      var current, allSteps, data := currentStepIndex, steps, formData;
      var nextIndex := current + 1;
      while nextIndex < |allSteps|
        invariant current + 1 <= nextIndex
        invariant NextVisible(allSteps, data, current + 1) == NextVisible(allSteps, data, nextIndex)
        decreases |allSteps| - nextIndex
      {
        var nextStepVisibleQuestions := VisibleQuestions(allSteps[nextIndex].questions, data);
        if |nextStepVisibleQuestions| > 0 {
          break;
        }
        nextIndex := nextIndex + 1;
      }
      if nextIndex < |allSteps| {
        currentStepIndex := nextIndex;
      }
    }

    /**
     * `goToPreviousStep`: move to the last earlier step that shows a
     * question; when there is none, stay put. From an index past the end of
     * the list the first lookup reads `.questions` of `undefined` and throws
     * before the index is set, which leaves the state as it was.
     */
    method GoToPreviousStep()
      modifies this`currentStepIndex
      ensures old(currentStepIndex) > |steps| ==> currentStepIndex == old(currentStepIndex)
      ensures old(currentStepIndex) <= |steps| ==>
        currentStepIndex == match PrevVisible(steps, formData, old(currentStepIndex) - 1)
          case Some(j) => j
          case None => old(currentStepIndex)
    {
      var current, allSteps, data := currentStepIndex, steps, formData;
      var prevIndex: int := current - 1;
      while prevIndex >= 0
        invariant -1 <= prevIndex < current
        invariant current > |allSteps| ==> prevIndex == current - 1
        invariant current <= |allSteps| ==>
          PrevVisible(allSteps, data, current - 1) == PrevVisible(allSteps, data, prevIndex)
        decreases prevIndex
      {
        if prevIndex >= |allSteps| {
          return;
        }
        var prevStepVisibleQuestions := VisibleQuestions(allSteps[prevIndex].questions, data);
        if |prevStepVisibleQuestions| > 0 {
          break;
        }
        prevIndex := prevIndex - 1;
      }
      if prevIndex >= 0 {
        currentStepIndex := prevIndex;
      }
    }

    /**
     * `submitForm`: build the payload from the answers as they are (nothing
     * is validated) and hand it to the endpoint, whose reply is `response`.
     * On acceptance the reference id is stored and returned; a rejection is
     * passed on to the caller.
     */
    method SubmitForm(mobileNumber: string, response: SubmitResponse) returns (payload: Payload, result: SubmitResponse)
      modifies this`referenceId
      ensures payload == BuildPayload(formData, mobileNumber)
      ensures result == response
      ensures referenceId == if response.Accepted? then response.referenceId else old(referenceId)
    {
      payload := BuildPayload(formData, mobileNumber);
      result := response;
      if response.Accepted? {
        referenceId := response.referenceId;
      }
    }

    /** `resetForm`. */
    method ResetForm()
      modifies this`currentStepIndex, this`formData, this`referenceId
      ensures currentStepIndex == 0 && formData == map[] && referenceId == ""
    {
      currentStepIndex := 0;
      formData := map[];
      referenceId := "";
    }
  }
}
