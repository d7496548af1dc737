/**
 * The review page: every question of every step tagged with its step's
 * title, the answered ones kept, option codes turned back into captions,
 * and the answered questions grouped by step title for display.
 */
module ReviewPage {
  import opened Js
  import opened Survey
  import opened Grouping

  /** A question tagged with the title of its step (`{...question, stepTitle}`). */
  datatype ReviewItem = ReviewItem(question: Question, stepTitle: string)

  // ---------------------------------------------------------------------------
  // getAllQuestions
  // ---------------------------------------------------------------------------

  /** One step's questions, tagged. */
  function Tagged(step: Step): (items: seq<ReviewItem>)
    ensures |items| == |step.questions|
    ensures forall j :: 0 <= j < |items| ==> items[j] == ReviewItem(step.questions[j], step.title)
  {
    seq(|step.questions|, j requires 0 <= j < |step.questions| => ReviewItem(step.questions[j], step.title))
  }

  /** The questions of all steps, in step order and then question order. */
  function Flatten(steps: seq<Step>): seq<ReviewItem>
  {
    if steps == [] then [] else Tagged(steps[0]) + Flatten(steps[1..])
  }

  /** How many questions the steps hold together. */
  function TotalQuestions(steps: seq<Step>): nat
  {
    if steps == [] then 0 else |steps[0].questions| + TotalQuestions(steps[1..])
  }

  lemma {:induction false} FlattenConcat(a: seq<Step>, b: seq<Step>)
    ensures Flatten(a + b) == Flatten(a) + Flatten(b)
    ensures TotalQuestions(a + b) == TotalQuestions(a) + TotalQuestions(b)
  {
    if a == [] {
      assert a + b == b;
    } else {
      assert (a + b)[0] == a[0] && (a + b)[1..] == a[1..] + b;
      FlattenConcat(a[1..], b);
    }
  }

  /** The list has one entry per question of the steps. */
  lemma {:induction false} FlattenLength(steps: seq<Step>)
    ensures |Flatten(steps)| == TotalQuestions(steps)
  {
    if steps != [] {
      FlattenLength(steps[1..]);
    }
  }

  /**
   * Question `j` of step `i` sits right after the questions of the steps
   * before `i`, tagged with the title of step `i`.
   */
  lemma {:induction false} FlattenAt(steps: seq<Step>, i: nat, j: nat)
    requires i < |steps| && j < |steps[i].questions|
    ensures TotalQuestions(steps[..i]) + j < |Flatten(steps)|
    ensures Flatten(steps)[TotalQuestions(steps[..i]) + j] == ReviewItem(steps[i].questions[j], steps[i].title)
  {
    var head, tail := Tagged(steps[0]), Flatten(steps[1..]);
    assert Flatten(steps) == head + tail;
    if i == 0 {
      assert steps[..0] == [];
    } else {
      FlattenAt(steps[1..], i - 1, j);
      assert steps[..i][0] == steps[0] && steps[..i][1..] == steps[1..][..i - 1];
      var n := TotalQuestions(steps[1..][..i - 1]);
      assert TotalQuestions(steps[..i]) == |head| + n;
      assert tail[n + j] == ReviewItem(steps[i].questions[j], steps[i].title);
    }
  }

  /** Appending a step appends its tagged questions. */
  lemma FlattenSnoc(steps: seq<Step>, step: Step)
    ensures Flatten(steps + [step]) == Flatten(steps) + Tagged(step)
  {
    FlattenConcat(steps, [step]);
    assert Flatten([step]) == Tagged(step) + Flatten([]);
  }

  /** `getAllQuestions`: the nested `forEach` pushing each tagged question. */
  method GetAllQuestions(allSteps: seq<Step>) returns (allQuestions: seq<ReviewItem>)
    ensures allQuestions == Flatten(allSteps)
  {
    allQuestions := [];
    var i := 0;
    while i < |allSteps|
      invariant 0 <= i <= |allSteps|
      invariant allQuestions == Flatten(allSteps[..i])
    {
      var step := allSteps[i];
      ghost var before := allQuestions;
      var j := 0;
      while j < |step.questions|
        invariant 0 <= j <= |step.questions|
        invariant allQuestions == before + Tagged(step)[..j]
      {
        allQuestions := allQuestions + [ReviewItem(step.questions[j], step.title)];
        assert Tagged(step)[..j + 1] == Tagged(step)[..j] + [ReviewItem(step.questions[j], step.title)];
        j := j + 1;
      }
      assert Tagged(step)[..j] == Tagged(step);
      FlattenSnoc(allSteps[..i], step);
      assert allSteps[..i + 1] == allSteps[..i] + [step];
      i := i + 1;
    }
    assert allSteps[..i] == allSteps;
  }

  // ---------------------------------------------------------------------------
  // getOptionLabel and formatAnswer
  // ---------------------------------------------------------------------------

  /**
   * The options looked up: the question's own when it has any, otherwise
   * `fieldOptions`, what the page's form hook gives for the question.
   */
  function OptionsFor(q: Question, fieldOptions: seq<ChoiceOption>): (opts: seq<ChoiceOption>)
    ensures |q.options| > 0 ==> opts == q.options
    ensures |q.options| == 0 ==> opts == fieldOptions
  {
    if |q.options| > 0 then q.options else fieldOptions
  }

  /** `opt.code === value || opt.value === value || opt.label === value`. */
  predicate Matches(opt: ChoiceOption, v: string)
  {
    opt.code == Some(v) || opt.value == Some(v) || opt.caption == v
  }

  /** `options.find(...)` as a position: the first matching option. */
  function FirstMatch(opts: seq<ChoiceOption>, v: string): (r: Option<nat>)
    ensures r.Some? ==> r.value < |opts| && Matches(opts[r.value], v)
    ensures r.Some? ==> forall j :: 0 <= j < r.value ==> !Matches(opts[j], v)
    ensures r.None? ==> forall j :: 0 <= j < |opts| ==> !Matches(opts[j], v)
  {
    if opts == [] then None
    else if Matches(opts[0], v) then Some(0)
    else match FirstMatch(opts[1..], v)
      case None => None
      case Some(j) => Some(j + 1)
  }

  /**
   * `getOptionLabel`: the caption of the first option whose code, value or
   * caption equals the answer; the answer itself when nothing matches.
   */
  function OptionLabel(q: Question, fieldOptions: seq<ChoiceOption>, v: string): (r: string)
    ensures var opts := OptionsFor(q, fieldOptions);
      (forall j :: 0 <= j < |opts| ==> !Matches(opts[j], v)) ==> r == v
    ensures var opts := OptionsFor(q, fieldOptions);
      forall i :: 0 <= i < |opts| && Matches(opts[i], v) && (forall j :: 0 <= j < i ==> !Matches(opts[j], v))
        ==> r == opts[i].caption
  {
    var opts := OptionsFor(q, fieldOptions);
    if |opts| == 0 then v
    else match FirstMatch(opts, v)
      case None => v
      case Some(i) => opts[i].caption
  }

  /** What the review shows for an answer. */
  datatype Shown = NotAnswered | Text(text: string) | Badges(labels: seq<string>)

  /** `formatAnswer`. */
  function FormatAnswer(q: Question, fieldOptions: seq<ChoiceOption>, a: Option<Answer>): (r: Shown)
    ensures r == NotAnswered <==> !HasValue(a)
    ensures a.Some? && a.value.Str? && HasValue(a) ==> r == Text(OptionLabel(q, fieldOptions, a.value.text))
    ensures a.Some? && a.value.Many? && HasValue(a) ==>
      r.Badges? && |r.labels| == |a.value.items|
      && forall i :: 0 <= i < |r.labels| ==> r.labels[i] == OptionLabel(q, fieldOptions, a.value.items[i])
  {
    match a
    case None => NotAnswered
    case Some(Str(s)) => if s == "" then NotAnswered else Text(OptionLabel(q, fieldOptions, s))
    case Some(Many(xs)) =>
      if |xs| == 0 then NotAnswered
      else Badges(seq(|xs|, i requires 0 <= i < |xs| => OptionLabel(q, fieldOptions, xs[i])))
  }

  // ---------------------------------------------------------------------------
  // getAnsweredQuestions and the grouping by step
  // ---------------------------------------------------------------------------

  predicate Answered(data: FormData, item: ReviewItem)
  {
    HasValue(Lookup(data, item.question.id))
  }

  /** `getAnsweredQuestions` on the tagged list. */
  function AnsweredQuestions(items: seq<ReviewItem>, data: FormData): seq<ReviewItem>
  {
    Filter(items, item => Answered(data, item))
  }

  /**
   * The answered list holds exactly the items whose answer is defined, not
   * empty text and not an empty list.
   */
  lemma AnsweredQuestionsExactly(items: seq<ReviewItem>, data: FormData)
    ensures forall k :: 0 <= k < |AnsweredQuestions(items, data)| ==>
      AnsweredQuestions(items, data)[k] in items && Answered(data, AnsweredQuestions(items, data)[k])
    ensures forall k :: 0 <= k < |items| ==> (items[k] in AnsweredQuestions(items, data) <==> Answered(data, items[k]))
  {
    var r := AnsweredQuestions(items, data);
    forall k | 0 <= k < |items| && items[k] in r ensures Answered(data, items[k]) {
      var m :| 0 <= m < |r| && r[m] == items[k];
    }
  }

  /** Filtering keeps the original order: it works piece by piece. */
  lemma AnsweredQuestionsConcat(a: seq<ReviewItem>, b: seq<ReviewItem>, data: FormData)
    ensures AnsweredQuestions(a + b, data) == AnsweredQuestions(a, data) + AnsweredQuestions(b, data)
  {
    FilterConcat(a, b, item => Answered(data, item));
  }

  function StepTitleOf(item: ReviewItem): string
  {
    item.stepTitle
  }

  /**
   * The grouping reduce by step title: every answered question lands in
   * exactly one group, in its original relative order, and the page shows
   * "no responses" exactly when there is nothing to group.
   */
  method GroupByStepTitle(items: seq<ReviewItem>) returns (groups: seq<Group<ReviewItem>>)
    ensures groups == GroupBy(items, StepTitleOf)
    ensures GroupedCorrectly(groups, items, StepTitleOf)
    ensures |groups| == 0 <==> |items| == 0
  {
    groups := [];
    var i := 0;
    while i < |items|
      invariant 0 <= i <= |items|
      invariant groups == GroupBy(items[..i], StepTitleOf)
    {
      assert items[..i + 1][..i] == items[..i];
      groups := Insert(groups, items[i].stepTitle, items[i]);
      i := i + 1;
    }
    assert items[..i] == items;
    GroupByCorrect(items, StepTitleOf);
    if |items| > 0 {
      assert exists g :: 0 <= g < |groups| && groups[g].key == StepTitleOf(items[0]);
    }
  }
}
