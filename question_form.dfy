/**
 * components/admin/questions/questions-form.tsx: `questionFormSchema`, a union discriminated
 * by `type` over three variants of one base schema, the default form values, the editing of
 * one option slot and the encoding of the true/false answer.
 */
module QuestionForm {
  import opened Wrappers
  import opened JsText
  import opened Zod
  import opened Utils

  /** The fields a validation issue can be reported on. */
  datatype Field = TextField | TypeField | QuizIdField | ExplanationField | TimeLimitField
    | PointsField | OptionsField | CorrectAnswerField

  /** The variant a `type` value selects, or `Unknown` when it is none of the three names. */
  datatype Kind = MultipleChoiceKind | TrueFalseKind | ShortAnswerKind | UnknownKind

  function KindOf(name: string): (k: Kind)
    ensures k == MultipleChoiceKind <==> name == MultipleChoice
    ensures k == TrueFalseKind <==> name == TrueFalse
    ensures k == ShortAnswerKind <==> name == ShortAnswer
    ensures k == UnknownKind <==> name !in QuestionTypes
  {
    if name == MultipleChoice then MultipleChoiceKind
    else if name == TrueFalse then TrueFalseKind
    else if name == ShortAnswer then ShortAnswerKind
    else UnknownKind
  }

  /** The form values handed to the resolver; `None` is a field the form never set. */
  datatype QuestionValues = QuestionValues(
    text: string,
    kind: string,
    quizId: Option<string>,
    explanation: string,
    timeLimit: real,
    points: real,
    shuffleOptions: Option<bool>,
    options: seq<string>,
    correctAnswer: string)

  /** The parsed question: strings trimmed, `shuffleOptions` defaulted, `options` kept only for multiple choice. */
  datatype ParsedQuestion = ParsedQuestion(
    text: string,
    kind: string,
    quizId: string,
    explanation: string,
    timeLimit: real,
    points: real,
    shuffleOptions: bool,
    options: Option<seq<string>>,
    correctAnswer: string)

  /** `DEFAULT_FORM_VALUES`, which has no `quizId`. */
  const DefaultValues := QuestionValues("", MultipleChoice, None, "", 60.0, 10.0, Some(false), ["", "", "", ""], "")

  function Issue(failed: bool, f: Field): set<Field> {
    if failed then {f} else {}
  }

  /** The issues of `baseQuestionSchema`: zod reports every failing field, not only the first. */
  function BaseIssues(v: QuestionValues): set<Field> {
    Issue(!TrimmedBetween(v.text, 3, 500), TextField) +
    Issue(v.quizId.None?, QuizIdField) +
    Issue(!TrimmedBetween(v.explanation, 10, 500), ExplanationField) +
    Issue(!NumberBetween(v.timeLimit, 10.0, 300.0), TimeLimitField) +
    Issue(!NumberBetween(v.points, 1.0, 100.0), PointsField)
  }

  /** The issues of the variant `type` selects. */
  function VariantIssues(v: QuestionValues): set<Field> {
    if KindOf(v.kind) == MultipleChoiceKind then
      Issue(|v.options| != 4, OptionsField) + Issue(!LengthBetween(v.correctAnswer, 0, 3), CorrectAnswerField)
    else
      Issue(|v.correctAnswer| < 1, CorrectAnswerField)
  }

  /** An unknown `type` fails on the discriminator alone; a known one is checked against its variant. */
  function Issues(v: QuestionValues): (r: set<Field>)
    ensures KindOf(v.kind) == UnknownKind ==> r == {TypeField}
    ensures TypeField !in r <==> KindOf(v.kind) != UnknownKind
  {
    if KindOf(v.kind) == UnknownKind then {TypeField} else BaseIssues(v) + VariantIssues(v)
  }

  /** `questionFormSchema.safeParse(values)`. */
  function Parse(v: QuestionValues): (r: Result<ParsedQuestion, set<Field>>)
    ensures r.Err? <==> Issues(v) != {}
    ensures r.Err? ==> r.error == Issues(v)
    ensures r.Ok? ==>
      var q := r.value;
      KindOf(q.kind) != UnknownKind && q.kind == v.kind &&
      q.text == Trim(v.text) && 3 <= Utf16Length(q.text) <= 500 &&
      q.explanation == Trim(v.explanation) && 10 <= Utf16Length(q.explanation) <= 500 &&
      v.quizId.Some? && q.quizId == v.quizId.value &&
      q.timeLimit == v.timeLimit && 10.0 <= q.timeLimit <= 300.0 &&
      q.points == v.points && 1.0 <= q.points <= 100.0 &&
      q.correctAnswer == v.correctAnswer &&
      (q.options.Some? ==> q.options.value == v.options) &&
      q.shuffleOptions == v.shuffleOptions.GetOr(false) &&
      (KindOf(q.kind) == MultipleChoiceKind <==> q.options.Some?) &&
      (q.options.Some? ==> |q.options.value| == 4 && Utf16Length(q.correctAnswer) <= 3) &&
      (KindOf(q.kind) != MultipleChoiceKind ==> q.correctAnswer != [])
  {
    var issues := Issues(v);
    if issues != {} then Err(issues)
    else
      assert TextField !in issues && ExplanationField !in issues && TimeLimitField !in issues;
      assert PointsField !in issues && QuizIdField !in issues && CorrectAnswerField !in issues;
      assert KindOf(v.kind) == MultipleChoiceKind ==> OptionsField !in issues;
      Ok(ParsedQuestion(Trim(v.text), v.kind, v.quizId.value, Trim(v.explanation), v.timeLimit, v.points,
        v.shuffleOptions.GetOr(false), if KindOf(v.kind) == MultipleChoiceKind then Some(v.options) else None, v.correctAnswer))
  }

  /** The defaults are rejected on the text, the explanation and the missing quiz, and on nothing else. */
  lemma DefaultsRejected()
    ensures Issues(DefaultValues) == {TextField, QuizIdField, ExplanationField}
  {
    assert Trim("") == "";
  }

  /** The parsed text carries no white space at either end. */
  lemma ParsedTextTrimmed(v: QuestionValues)
    requires Parse(v).Ok?
    ensures !IsWhitespace(Parse(v).value.text[0])
    ensures !IsWhitespace(Parse(v).value.text[|Parse(v).value.text| - 1])
  {
    TrimmedHasNoPadding(v.text);
  }

  /** White space around the question text or explanation never changes the verdict. */
  lemma PaddingDoesNotMatter(v: QuestionValues, pre: string, post: string)
    requires AllWhitespace(pre) && AllWhitespace(post)
    ensures Issues(v.(text := pre + v.text + post)) == Issues(v)
    ensures Issues(v.(explanation := pre + v.explanation + post)) == Issues(v)
  {
    PaddedText(v, pre, post);
    PaddedExplanation(v, pre, post);
  }

  lemma PaddedText(v: QuestionValues, pre: string, post: string)
    requires AllWhitespace(pre) && AllWhitespace(post)
    ensures Issues(v.(text := pre + v.text + post)) == Issues(v)
  {
    var w := v.(text := pre + v.text + post);
    PaddingIrrelevant(pre, v.text, post, 3, 500);
    assert BaseIssues(w) == BaseIssues(v);
    assert VariantIssues(w) == VariantIssues(v);
  }

  lemma PaddedExplanation(v: QuestionValues, pre: string, post: string)
    requires AllWhitespace(pre) && AllWhitespace(post)
    ensures Issues(v.(explanation := pre + v.explanation + post)) == Issues(v)
  {
    var w := v.(explanation := pre + v.explanation + post);
    PaddingIrrelevant(pre, v.explanation, post, 10, 500);
    assert BaseIssues(w) == BaseIssues(v);
    assert VariantIssues(w) == VariantIssues(v);
  }

  /** Clicking option `i` stores that option's text as the answer. */
  function SelectOption(v: QuestionValues, i: nat): (r: QuestionValues)
    requires i < |v.options|
    ensures r.correctAnswer == v.options[i] && r.options == v.options && r.kind == v.kind
  {
    v.(correctAnswer := v.options[i])
  }

  /** The answer is stored as the option's text, so choosing any option longer than 3 characters makes the form invalid. */
  lemma LongChoiceRejected(v: QuestionValues, i: nat)
    requires KindOf(v.kind) == MultipleChoiceKind && i < |v.options| && |v.options[i]| > 3
    ensures CorrectAnswerField in Issues(SelectOption(v, i))
    ensures Parse(SelectOption(v, i)).Err?
  {
  }

  /** Choosing an option of at most 3 UTF-16 code units satisfies the answer check. */
  lemma ShortChoiceAccepted(v: QuestionValues, i: nat)
    requires KindOf(v.kind) == MultipleChoiceKind && i < |v.options| && Utf16Length(v.options[i]) <= 3
    ensures CorrectAnswerField !in Issues(SelectOption(v, i))
  {
  }

  /** An option of two emoji has two characters but four UTF-16 code units, so choosing it fails `max(3)`. */
  lemma AstralChoiceRejected(v: QuestionValues, i: nat)
    requires KindOf(v.kind) == MultipleChoiceKind && i < |v.options| && v.options[i] == "\U{1F600}\U{1F600}"
    ensures |v.options[i]| == 2
    ensures CorrectAnswerField in Issues(SelectOption(v, i))
  {
    assert Utf16Length(v.options[i]) == 4;
  }

  /**
   * The choice stored as the option's position, as the three-character limit and a sample sheet
   * whose answer column holds "1" suggest: every choice then satisfies the answer check.
   */
  function SelectOptionIndex(v: QuestionValues, i: nat): (r: QuestionValues)
    requires i < |v.options|
    ensures r.correctAnswer == NatToString(i) && r.options == v.options && r.kind == v.kind
  {
    v.(correctAnswer := NatToString(i))
  }

  /** With the position stored, each of the four options of a four-option question can be chosen without a validation error. */
  lemma IndexChoiceAccepted(v: QuestionValues, i: nat)
    requires KindOf(v.kind) == MultipleChoiceKind && |v.options| == 4 && i < 4
    ensures CorrectAnswerField !in Issues(SelectOptionIndex(v, i))
    ensures OptionsField !in Issues(SelectOptionIndex(v, i))
  {
    assert |NatToString(i)| == 1;
    assert Utf16Length(NatToString(i)) == 1;
  }

  /** The radio group's `String(value === "true")`. */
  function TrueFalseAnswer(value: string): (r: string)
    ensures r == "true" || r == "false"
    ensures r == "true" <==> value == "true"
  {
    if value == "true" then "true" else "false"
  }

  /** A true/false question answered through the radio group always passes the answer check. */
  lemma TrueFalseChoiceAccepted(v: QuestionValues, value: string)
    requires KindOf(v.kind) == TrueFalseKind
    ensures CorrectAnswerField !in Issues(v.(correctAnswer := TrueFalseAnswer(value)))
  {
    var a := TrueFalseAnswer(value);
    assert |a| >= 1;
  }

  /** `newOptions = [...field.value]; newOptions[index] = value`: only slot `index` of the copy changes. */
  function EditOption(options: seq<string>, index: nat, value: string): (r: seq<string>)
    requires index < |options|
    ensures |r| == |options| && r[index] == value
    ensures forall k :: 0 <= k < |options| && k != index ==> r[k] == options[k]
  {
    options[index := value]
  }

  /** Editing an option never breaks the four-option requirement. */
  lemma EditKeepsOptionCount(v: QuestionValues, index: nat, value: string)
    requires index < |v.options|
    ensures OptionsField in Issues(v.(options := EditOption(v.options, index, value))) <==> OptionsField in Issues(v)
  {
  }

  /** Outside multiple choice the option list is never looked at. */
  lemma OptionsIgnoredOutsideMultipleChoice(v: QuestionValues, options: seq<string>)
    requires KindOf(v.kind) != MultipleChoiceKind
    ensures Issues(v.(options := options)) == Issues(v)
    ensures OptionsField !in Issues(v)
  {
  }
}
