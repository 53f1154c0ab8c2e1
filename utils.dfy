/**
 * lib/utils.ts: the in-place Durstenfeld shuffle (Knuth, The Art of Computer
 * Programming, Vol. 2, section 3.4.2, Algorithm P) and the per-question type
 * randomiser. Each `Math.random()` result is supplied as a draw `r` with
 * 0 <= r < 1, in the order the source asks for them.
 */
module Utils {
  import opened Wrappers

  predicate IsDraw(r: real) {
    0.0 <= r < 1.0
  }

  predicate ValidDraws(ds: seq<real>) {
    forall k :: 0 <= k < |ds| ==> IsDraw(ds[k])
  }

  /** `Math.floor(r * (i + 1))`: every draw picks an index in 0..i, so the swap is in bounds. */
  function PickIndex(r: real, i: nat): (j: nat)
    requires IsDraw(r)
    ensures j <= i
  {
    var n := (i + 1) as real;
    ScaledDrawBelow(r, n);
    var x := r * n;
    assert 0.0 <= x < n;
    x.Floor
  }

  /** A draw scaled by a positive `n` lies in [0, n). */
  lemma ScaledDrawBelow(r: real, n: real)
    requires IsDraw(r) && n > 0.0
    ensures 0.0 <= r * n < n
  {
  }

  function Swap<T>(s: seq<T>, i: nat, j: nat): (r: seq<T>)
    requires i < |s| && j < |s|
    ensures |r| == |s| && r[i] == s[j] && r[j] == s[i]
    ensures forall k :: 0 <= k < |s| && k != i && k != j ==> r[k] == s[k]
  {
    s[i := s[j]][j := s[i]]
  }

  /** Exchanging two slots keeps the multiset of elements. */
  lemma SwapPermutes<T>(s: seq<T>, i: nat, j: nat)
    requires i < |s| && j < |s|
    ensures multiset(Swap(s, i, j)) == multiset(s)
  {
  }

  /**
   * The loop of `shuffleArray` from index `i` down to 1, the iteration for `i` drawing `ds[k]`
   * and the next ones `ds[k + 1]`, `ds[k + 2]`, ... It never touches a slot above `i`.
   */
  function ShuffleFrom<T>(s: seq<T>, i: int, ds: seq<real>, k: nat): (r: seq<T>)
    requires i < |s| && ValidDraws(ds) && (i <= 0 || k + i <= |ds|)
    ensures |r| == |s|
    ensures forall m :: i < m < |s| && 0 <= m ==> r[m] == s[m]
    decreases i
  {
    if i <= 0 then s
    else ShuffleFrom(Swap(s, i, PickIndex(ds[k], i)), i - 1, ds, k + 1)
  }

  /** Every run of the loop permutes the sequence. */
  lemma {:induction false} ShuffleFromPermutes<T>(s: seq<T>, i: int, ds: seq<real>, k: nat)
    requires i < |s| && ValidDraws(ds) && (i <= 0 || k + i <= |ds|)
    ensures multiset(ShuffleFrom(s, i, ds, k)) == multiset(s)
    decreases i
  {
    if i > 0 {
      var j := PickIndex(ds[k], i);
      SwapPermutes(s, i, j);
      ShuffleFromPermutes(Swap(s, i, j), i - 1, ds, k + 1);
    }
  }

  /** What `shuffleArray` leaves in an array that held `s`, given the draws it used. */
  function Shuffled<T>(s: seq<T>, ds: seq<real>): seq<T>
    requires ValidDraws(ds) && |s| - 1 <= |ds|
  {
    ShuffleFrom(s, |s| - 1, ds, 0)
  }

  /** The shuffle is a permutation of its input, whatever the draws. */
  lemma ShuffledIsPermutation<T>(s: seq<T>, ds: seq<real>)
    requires ValidDraws(ds) && |s| - 1 <= |ds|
    ensures |Shuffled(s, ds)| == |s| && multiset(Shuffled(s, ds)) == multiset(s)
  {
    ShuffleFromPermutes(s, |s| - 1, ds, 0);
  }

  /** Arrays of length 0 or 1 come back unchanged: the loop body never runs. */
  lemma ShortUnchanged<T>(s: seq<T>, ds: seq<real>)
    requires |s| <= 1 && ValidDraws(ds)
    ensures Shuffled(s, ds) == s
  {
  }

  /** Once the loop is at `i`, the slots above `i` already hold their final values. */
  lemma SuffixSettled<T>(s: seq<T>, i: int, ds: seq<real>, k: nat, target: seq<T>)
    requires -1 <= i < |s| && ValidDraws(ds) && (i <= 0 || k + i <= |ds|)
    requires ShuffleFrom(s, i, ds, k) == target
    ensures |target| == |s| && s[i + 1..] == target[i + 1..]
  {
  }

  /** `shuffleArray(array)`: swaps `array[i]` with `array[j]`, j = floor(random * (i + 1)), for i from the end down to 1. */
  method ShuffleArray<T>(a: array<T>, draws: seq<real>)
    requires ValidDraws(draws) && a.Length - 1 <= |draws|
    modifies a
    ensures a[..] == Shuffled(old(a[..]), draws)
    ensures multiset(a[..]) == multiset(old(a[..]))
  {
    ghost var target := Shuffled(old(a[..]), draws);
    var i := a.Length - 1;
    var k := 0;
    while i > 0
      invariant -1 <= i < a.Length && k == a.Length - 1 - i
      invariant ShuffleFrom(a[..], i, draws, k) == target
      invariant forall m :: i < m < a.Length && 0 <= m ==> a[m] == target[m]
    {
      var j := PickIndex(draws[k], i);
      ghost var before := a[..];
      var t := a[i];
      a[i] := a[j];
      a[j] := t;
      assert a[..] == Swap(before, i, j);
      i := i - 1;
      k := k + 1;
    }
    ShuffledIsPermutation(old(a[..]), draws);
  }

  /** The three type names, in the order of `questionTypes`. */
  const MultipleChoice := "multiple-choice"
  const TrueFalse := "true-false"
  const ShortAnswer := "short-answer"
  const QuestionTypes: seq<string> := [MultipleChoice, TrueFalse, ShortAnswer]

  /** A `correctAnswer` value: a string, or the boolean the true/false conversion stores. */
  datatype AnswerValue = TextAnswer(text: string) | BoolAnswer(flag: bool)

  /** A question record as it reaches the randomiser; `options` is `None` when the field is absent. */
  datatype Question = Question(
    id: string,
    quizId: string,
    text: string,
    kind: string,
    options: Option<seq<AnswerValue>>,
    correctAnswer: AnswerValue,
    explanation: string,
    points: int,
    timeLimit: int)

  /** The `Math.random()` results one question consumes: the type, the option shuffle, the true/false answer. */
  datatype QuestionDraws = QuestionDraws(kindDraw: real, optionDraws: seq<real>, answerDraw: real)

  predicate ValidQuestionDraws(d: QuestionDraws) {
    IsDraw(d.kindDraw) && ValidDraws(d.optionDraws) && |d.optionDraws| >= 3 && IsDraw(d.answerDraw)
  }

  /** `questionTypes[Math.floor(Math.random() * questionTypes.length)]`. */
  function DrawnType(d: QuestionDraws): (t: string)
    requires ValidQuestionDraws(d)
    ensures t in QuestionTypes
  {
    QuestionTypes[PickIndex(d.kindDraw, 2)]
  }

  /** The options invented for a question turned into multiple choice. */
  function InventedOptions(answer: AnswerValue): seq<AnswerValue> {
    [answer, TextAnswer("Incorrect Option 1"), TextAnswer("Incorrect Option 2"), TextAnswer("Incorrect Option 3")]
  }

  /** The callback of `questions.map` in `randomizeQuestionTypes`. */
  function RandomizeOne(q: Question, d: QuestionDraws): (r: Question)
    requires ValidQuestionDraws(d)
    ensures DrawnType(d) == q.kind ==> r == q
    ensures DrawnType(d) != q.kind ==> r.kind == DrawnType(d)
    ensures r.id == q.id && r.quizId == q.quizId && r.explanation == q.explanation
    ensures r.points == q.points && r.timeLimit == q.timeLimit
    ensures DrawnType(d) != q.kind && DrawnType(d) == MultipleChoice ==>
      r.text == q.text && r.correctAnswer == q.correctAnswer &&
      (q.options.Some? ==> r.options == q.options) &&
      (q.options.None? ==> r.options.Some? && multiset(r.options.value) == multiset(InventedOptions(q.correctAnswer)))
    ensures DrawnType(d) != q.kind && DrawnType(d) != MultipleChoice ==> r.options.None?
    ensures DrawnType(d) != q.kind && DrawnType(d) == TrueFalse ==>
      r.correctAnswer.BoolAnswer? && r.text == q.text + " (True/False)"
    ensures DrawnType(d) != q.kind && DrawnType(d) == ShortAnswer ==>
      r.correctAnswer == q.correctAnswer && r.text == q.text
  {
    var t := DrawnType(d);
    if t == q.kind then q
    else
      ShuffledIsPermutation(InventedOptions(q.correctAnswer), d.optionDraws);
      var typed := q.(kind := t);
      var withOptions :=
        if t == MultipleChoice && typed.options.None? then
          typed.(options := Some(Shuffled(InventedOptions(typed.correctAnswer), d.optionDraws)))
        else if t != MultipleChoice then typed.(options := None)
        else typed;
      if t == TrueFalse then
        withOptions.(correctAnswer := BoolAnswer(d.answerDraw < 0.5), text := withOptions.text + " (True/False)")
      else withOptions
  }

  /** `randomizeQuestionTypes(questions)`: one question out per question in, in order. */
  function RandomizeQuestionTypes(qs: seq<Question>, ds: seq<QuestionDraws>): (r: seq<Question>)
    requires |ds| == |qs| && forall k :: 0 <= k < |ds| ==> ValidQuestionDraws(ds[k])
    ensures |r| == |qs|
    ensures forall k :: 0 <= k < |qs| ==> r[k] == RandomizeOne(qs[k], ds[k])
  {
    if qs == [] then [] else [RandomizeOne(qs[0], ds[0])] + RandomizeQuestionTypes(qs[1..], ds[1..])
  }

  /** Every randomised question carries one of the three type names, whatever type it had before. */
  lemma {:induction false} RandomizedTypesAreKnown(qs: seq<Question>, ds: seq<QuestionDraws>, k: nat)
    requires |ds| == |qs| && forall i :: 0 <= i < |ds| ==> ValidQuestionDraws(ds[i])
    requires k < |qs|
    ensures RandomizeQuestionTypes(qs, ds)[k].kind in QuestionTypes
  {
    var r := RandomizeQuestionTypes(qs, ds)[k];
    assert r == RandomizeOne(qs[k], ds[k]);
  }
}
