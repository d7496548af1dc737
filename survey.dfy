/**
 * The survey schema and answer model shared by the form engine and the
 * screens: the `SurveyQuestion`, `SurveyStep` and `ChoiceOption` records of
 * the survey service, the answer map held by the form hook, and the two
 * notions of "has an answer" the screens use.
 */
module Survey {
  import opened Js

  /** One entry of the answer map: `string | string[]`. */
  datatype Answer = Str(text: string) | Many(items: seq<string>)

  /** The answer map, `{ [key: string]: string | string[] }`. */
  type FormData = map<string, Answer>

  datatype InputType = Dropdown | Radio | Checkbox | Chips | Cards | RadioTiles

  /**
   * A choice. Service options carry `code` and `label`; the form-field
   * components also accept a `value`; an absent property is `None`. The
   * `label` property is called `caption` here (`label` is a Dafny keyword).
   */
  datatype ChoiceOption = ChoiceOption(code: Option<string>, value: Option<string>, caption: string)

  /**
   * The value a form-field component records for an option:
   * `code || value || label`, so an empty code or value is skipped.
   */
  function OptionValue(opt: ChoiceOption): (v: string)
    ensures opt.code.Some? && opt.code.value != "" ==> v == opt.code.value
    ensures (opt.code.None? || opt.code.value == "") && opt.value.Some? && opt.value.value != "" ==> v == opt.value.value
    ensures (opt.code.None? || opt.code.value == "") && (opt.value.None? || opt.value.value == "") ==> v == opt.caption
  {
    if opt.code.Some? && opt.code.value != "" then opt.code.value
    else if opt.value.Some? && opt.value.value != "" then opt.value.value
    else opt.caption
  }

  /** The `options` prop of the multi-select components: plain strings, or option records. */
  datatype OptionList = Plain(items: seq<string>) | Records(records: seq<ChoiceOption>)

  /** The value behind each option of the list, in order. */
  function OptionValues(options: OptionList): (vs: seq<string>)
    ensures options.Plain? ==> vs == options.items
    ensures options.Records? ==>
      |vs| == |options.records| && forall i :: 0 <= i < |vs| ==> vs[i] == OptionValue(options.records[i])
  {
    match options
    case Plain(items) => items
    case Records(records) => seq(|records|, i requires 0 <= i < |records| => OptionValue(records[i]))
  }

  /**
   * A question. `visibleWhen` maps a prerequisite question id to the answers
   * that let this question show; a missing `options` list is the empty list.
   */
  datatype Question = Question(
    id: string,
    caption: string,
    inputType: InputType,
    required: bool,
    visibleWhen: Option<map<string, seq<string>>>,
    options: seq<ChoiceOption>,
    rowGroup: Option<string>,
    dependsOn: Option<string>)

  datatype Step = Step(stepId: string, title: string, stepNumber: int, totalSteps: int, questions: seq<Question>)

  /** A district, revenue division, mandal or village as the location service returns it. */
  datatype Location = Location(id: int, name: string)

  datatype Language = En | Te

  const DISTRICT := "district"
  const REVENUE_DIVISION := "revenueDivision"
  const MANDAL := "mandal"
  const VILLAGE := "village"

  /** `formData[id]`, with `undefined` as `None`. */
  function Lookup(data: FormData, id: string): (a: Option<Answer>)
    ensures a.Some? <==> id in data
    ensures a.Some? ==> a.value == data[id]
  {
    if id in data then Some(data[id]) else None
  }

  /** JavaScript truthiness of an answer: `undefined` and `""` are falsy, every array is truthy. */
  predicate Truthy(a: Option<Answer>)
  {
    match a
    case None => false
    case Some(Str(s)) => s != ""
    case Some(Many(_)) => true
  }

  /**
   * The "has an answer" test of `canProceed` and of the review page: defined,
   * not `""`, and not an empty array.
   */
  predicate HasValue(a: Option<Answer>)
  {
    match a
    case None => false
    case Some(Str(s)) => s != ""
    case Some(Many(xs)) => |xs| > 0
  }

  /** The two tests differ on one value only: the empty array is truthy yet unanswered. */
  lemma HasValueVersusTruthy(a: Option<Answer>)
    ensures HasValue(a) ==> Truthy(a)
    ensures Truthy(a) && !HasValue(a) <==> a == Some(Many([]))
  {
  }
}
