/**
 * components/mods/excel-upload-modal.tsx: the mapping of spreadsheet rows to questions in
 * `parseExcelFile`, and `handleUpload`, which checks its inputs, submits every question in
 * order and reports progress. Reading the workbook and the server action are not modelled:
 * the rows and the result of each call are parameters.
 */
module ExcelUpload {
  import opened Wrappers
  import opened JsText
  import opened Utils

  /** A cell as `sheet_to_json` delivers it: absent, text, a whole number or a boolean. */
  datatype Cell = Missing | TextCell(text: string) | IntCell(number: int) | BoolCell(flag: bool)

  /** The string JavaScript makes of a cell value (`String(value)`, also used by template literals and `parseInt`). */
  function CellString(c: Cell): string {
    match c
    case Missing => "undefined"
    case TextCell(s) => s
    case IntCell(n) => IntToString(n)
    case BoolCell(b) => if b then "true" else "false"
  }

  /** `parseInt(cell)`; `None` is NaN. */
  function ParseCell(c: Cell): Option<int> {
    ParseInt(CellString(c))
  }

  /** The columns one row may carry. */
  datatype Row = Row(
    text: Cell, kind: Cell, explanation: Cell, timeLimit: Cell, points: Cell, shuffleOptions: Cell,
    option1: Cell, option2: Cell, option3: Cell, option4: Cell, correctOption: Cell, correctAnswer: Cell)

  /** The object built for one row; `options` is `None` for `undefined`. */
  datatype UploadQuestion = UploadQuestion(
    text: Cell, kind: Cell, quizId: string, explanation: Cell, timeLimit: Option<int>, points: Option<int>,
    shuffleOptions: bool, options: Option<seq<Cell>>, correctAnswer: Cell)

  predicate IsMultipleChoiceRow(r: Row) {
    r.kind == TextCell(MultipleChoice)
  }

  /** The `map` callback of `parseExcelFile`. */
  function MapRow(r: Row, quizId: string): (q: UploadQuestion)
    ensures q.quizId == quizId && q.text == r.text && q.kind == r.kind && q.explanation == r.explanation
    ensures q.timeLimit == ParseCell(r.timeLimit) && q.points == ParseCell(r.points)
    ensures q.shuffleOptions <==> r.shuffleOptions == TextCell("true")
    ensures IsMultipleChoiceRow(r) ==>
      q.options == Some([r.option1, r.option2, r.option3, r.option4]) && q.correctAnswer == r.correctOption
    ensures !IsMultipleChoiceRow(r) ==> q.options.None? && q.correctAnswer == r.correctAnswer
  {
    var mc := IsMultipleChoiceRow(r);
    UploadQuestion(r.text, r.kind, quizId, r.explanation, ParseCell(r.timeLimit), ParseCell(r.points),
      r.shuffleOptions == TextCell("true"),
      if mc then Some([r.option1, r.option2, r.option3, r.option4]) else None,
      if mc then r.correctOption else r.correctAnswer)
  }

  /** `jsonData.map(...)`: one question per row, in row order. */
  function MapRows(rows: seq<Row>, quizId: string): (qs: seq<UploadQuestion>)
    ensures |qs| == |rows|
    ensures forall i :: 0 <= i < |rows| ==> qs[i] == MapRow(rows[i], quizId)
  {
    seq(|rows|, i requires 0 <= i < |rows| => MapRow(rows[i], quizId))
  }

  /** Every mapped question belongs to the selected quiz. */
  lemma AllForSelectedQuiz(rows: seq<Row>, quizId: string, i: nat)
    requires i < |rows|
    ensures MapRows(rows, quizId)[i].quizId == quizId
  {
  }

  /** A numeric cell and a text cell holding its decimal digits both parse to that number. */
  lemma NumberCellsParse(n: int)
    ensures ParseCell(IntCell(n)) == Some(n)
    ensures ParseCell(TextCell(IntToString(n))) == Some(n)
  {
    ParseIntRoundTrip(n);
  }

  /** A boolean TRUE cell is not the string "true": it leaves `shuffleOptions` false. */
  lemma BooleanCellDoesNotShuffle(r: Row, quizId: string)
    requires r.shuffleOptions == BoolCell(true)
    ensures !MapRow(r, quizId).shuffleOptions
  {
  }

  /** The result of one `createQuestion` call: it returns either a question or an `error`. */
  datatype CallResult = Created | Rejected(error: string)

  datatype ToastKind = ErrorToast | SuccessToast

  datatype Toast = Toast(kind: ToastKind, title: string)

  const NoFileMessage := "Please select a file to upload"
  const NoQuizMessage := "Please select a quiz"
  const DoneMessage := "Questions uploaded successfully"
  const ReadFailedMessage := "Failed to upload questions"

  /** The error toasts of the first `k` calls, in call order. */
  function FailureToasts(qs: seq<UploadQuestion>, results: seq<CallResult>, k: nat): (ts: seq<Toast>)
    requires k <= |qs| && k <= |results|
    ensures |ts| <= k
  {
    if k == 0 then []
    else
      FailureToasts(qs, results, k - 1) + FailureToast(qs[k - 1], results[k - 1])
  }

  /** The toast one call adds: an error naming the question when it was rejected with a non-empty message (`if (error)`), else none. */
  function FailureToast(q: UploadQuestion, result: CallResult): seq<Toast> {
    if result.Rejected? && result.error != "" then [Toast(ErrorToast, "Failed to create question: " + CellString(q.text))] else []
  }

  /** When every call succeeds no error toast is shown. */
  lemma {:induction false} AllCreatedNoFailureToasts(qs: seq<UploadQuestion>, results: seq<CallResult>, k: nat)
    requires k <= |qs| && k <= |results|
    requires forall i :: 0 <= i < k ==> results[i] == Created
    ensures FailureToasts(qs, results, k) == []
  {
    if k > 0 {
      AllCreatedNoFailureToasts(qs, results, k - 1);
    }
  }

  /** Every rejected question is reported by its text, and every toast reports a rejected question: the loop went on past each failure. */
  lemma {:induction false} FailuresReported(qs: seq<UploadQuestion>, results: seq<CallResult>, k: nat, t: Toast)
    requires k <= |qs| && k <= |results|
    ensures t in FailureToasts(qs, results, k) <==>
      exists i :: 0 <= i < k && FailureToast(qs[i], results[i]) == [t]
  {
    if k > 0 {
      FailuresReported(qs, results, k - 1, t);
      var last := FailureToast(qs[k - 1], results[k - 1]);
      assert t in FailureToasts(qs, results, k) <==> t in FailureToasts(qs, results, k - 1) || t in last;
      if t in last {
        assert last == [t];
      }
    }
  }

  /** `((i + 1) / totalQuestions) * 100` for the completed calls `i = 0 .. k - 1`. */
  function ProgressSteps(k: nat, total: nat): (ps: seq<real>)
    requires k <= total
    ensures |ps| == k
    ensures forall i :: 0 <= i < k ==> ps[i] == Progress(i, total)
  {
    seq(k, i requires 0 <= i < k <= total => Progress(i, total))
  }

  /** The progress shown once call `i` (counting from 0) of `total` has returned. */
  function Progress(i: nat, total: nat): real
    requires i < total
  {
    ((i + 1) as real / total as real) * 100.0
  }

  /** The reported progress rises strictly, stays within (0, 100], and its last value is exactly 100. */
  lemma ProgressRisesToFull(total: nat)
    requires total >= 1
    ensures ProgressSteps(total, total)[total - 1] == 100.0
    ensures forall i, j :: 0 <= i < j < total ==> ProgressSteps(total, total)[i] < ProgressSteps(total, total)[j]
    ensures forall i :: 0 <= i < total ==> 0.0 < ProgressSteps(total, total)[i] <= 100.0
  {
    var ps := ProgressSteps(total, total);
    var t := total as real;
    assert t / t == 1.0;
    assert ps[total - 1] == Progress(total - 1, total) == (t / t) * 100.0;
    forall i, j | 0 <= i < j < total ensures ps[i] < ps[j] {
      ProgressIncreasing(i, j, total);
    }
    forall i | 0 <= i < total ensures 0.0 < ps[i] <= 100.0 {
      ProgressInRange(i, total);
    }
  }

  lemma ProgressIncreasing(i: nat, j: nat, total: nat)
    requires i < j < total
    ensures Progress(i, total) < Progress(j, total)
  {
    DivideIncreasing((i + 1) as real, (j + 1) as real, total as real);
  }

  lemma ProgressInRange(i: nat, total: nat)
    requires i < total
    ensures 0.0 < Progress(i, total) <= 100.0
  {
    FractionAtMostOne((i + 1) as real, total as real);
  }

  /** One more item appends its progress value to the log of steps. */
  lemma ProgressStepsAppend(i: nat, total: nat)
    requires i < total
    ensures ProgressSteps(i + 1, total) == ProgressSteps(i, total) + [Progress(i, total)]
  {
  }

  lemma DivideIncreasing(a: real, b: real, t: real)
    requires t > 0.0 && 0.0 < a < b
    ensures 0.0 < a / t < b / t
  {
    var x := a / t;
    var y := b / t;
    assert x * t == a;
    assert y * t == b;
    assert (y - x) * t == b - a;
  }

  lemma FractionAtMostOne(a: real, t: real)
    requires 0.0 < a <= t
    ensures 0.0 < a / t <= 1.0
  {
    var x := a / t;
    assert x * t == a;
    assert (1.0 - x) * t == t - a;
  }

  /**
   * How `parseExcelFile(file)` settles: resolved with the sheet's rows, rejected by
   * `reader.onerror`, or never, when `XLSX.read` or `sheet_to_json` throws inside `reader.onload`.
   */
  datatype SheetOutcome = Parsed(rows: seq<Row>) | ReadFails | ParseThrows

  /** The state of the upload dialog. `progressLog` lists every value given to `setProgress`. */
  class ExcelUploadModal {
    var file: Option<string>
    var isUploading: bool
    var progress: real
    var selectedQuizId: string
    var progressLog: seq<real>
    var toasts: seq<Toast>
    var submitted: seq<UploadQuestion>
    var completions: nat

    constructor()
      ensures file.None? && !isUploading && progress == 0.0 && selectedQuizId == ""
      ensures progressLog == [] && toasts == [] && submitted == [] && completions == 0
    {
      file := None;
      isUploading := false;
      progress := 0.0;
      selectedQuizId := "";
      progressLog := [];
      toasts := [];
      submitted := [];
      completions := 0;
    }

    /**
     * `handleUpload()`. `sheet` is how `parseExcelFile` settles; `results[i]` is what the i-th
     * `createQuestion` call returns. When the parsing inside `reader.onload` throws, the promise
     * never settles: the `await` does not resume, so neither the `catch` nor the `finally` runs.
     */
    method HandleUpload(sheet: SheetOutcome, results: seq<CallResult>)
      requires sheet.Parsed? ==> |results| == |sheet.rows|
      modifies this
      ensures selectedQuizId == old(selectedQuizId)
      ensures old(file).None? ==>
        toasts == old(toasts) + [Toast(ErrorToast, NoFileMessage)] &&
        file == old(file) && isUploading == old(isUploading) && progress == old(progress) &&
        progressLog == old(progressLog) && submitted == old(submitted) && completions == old(completions)
      ensures old(file).Some? && old(selectedQuizId) == "" ==>
        toasts == old(toasts) + [Toast(ErrorToast, NoQuizMessage)] &&
        file == old(file) && isUploading == old(isUploading) && progress == old(progress) &&
        progressLog == old(progressLog) && submitted == old(submitted) && completions == old(completions)
      ensures old(file).Some? && old(selectedQuizId) != "" && sheet.ParseThrows? ==>
        isUploading && file == old(file) && progress == 0.0 && progressLog == old(progressLog) + [0.0] &&
        toasts == old(toasts) && submitted == old(submitted) && completions == old(completions)
      ensures old(file).Some? && old(selectedQuizId) != "" && !sheet.ParseThrows? ==>
        !isUploading && file.None? && progress == 0.0
      ensures old(file).Some? && old(selectedQuizId) != "" && sheet.ReadFails? ==>
        toasts == old(toasts) + [Toast(ErrorToast, ReadFailedMessage)] &&
        progressLog == old(progressLog) + [0.0, 0.0] && submitted == old(submitted) && completions == old(completions)
      ensures old(file).Some? && old(selectedQuizId) != "" && sheet.Parsed? ==>
        var qs := MapRows(sheet.rows, old(selectedQuizId));
        submitted == old(submitted) + qs &&
        toasts == old(toasts) + FailureToasts(qs, results, |qs|) + [Toast(SuccessToast, DoneMessage)] &&
        progressLog == old(progressLog) + [0.0] + ProgressSteps(|qs|, |qs|) + [0.0] &&
        completions == old(completions) + 1
    {
      if file.None? {
        toasts := toasts + [Toast(ErrorToast, NoFileMessage)];
        return;
      }
      if selectedQuizId == "" {
        toasts := toasts + [Toast(ErrorToast, NoQuizMessage)];
        return;
      }
      isUploading := true;
      progress := 0.0;
      progressLog := progressLog + [0.0];
      match sheet {
        case ParseThrows =>
          return;
        case ReadFails =>
          toasts := toasts + [Toast(ErrorToast, ReadFailedMessage)];
        case Parsed(rows) =>
          var questions := MapRows(rows, selectedQuizId);
          SubmitAll(questions, results);
          toasts := toasts + [Toast(SuccessToast, DoneMessage)];
          completions := completions + 1;
      }
      isUploading := false;
      file := None;
      progress := 0.0;
      progressLog := progressLog + [0.0];
    }

    /**
     * The `for` loop of `handleUpload`: submits each question in order, shows an error toast for
     * each rejected one and then sets the progress to the share of questions done.
     */
    method SubmitAll(questions: seq<UploadQuestion>, results: seq<CallResult>)
      requires |results| == |questions|
      modifies this
      ensures submitted == old(submitted) + questions
      ensures toasts == old(toasts) + FailureToasts(questions, results, |questions|)
      ensures progressLog == old(progressLog) + ProgressSteps(|questions|, |questions|)
      ensures progress == if questions == [] then old(progress) else Progress(|questions| - 1, |questions|)
      ensures file == old(file) && isUploading == old(isUploading) && selectedQuizId == old(selectedQuizId)
      ensures completions == old(completions)
    {
      var sent, shown, log := SubmitEach(questions, results);
      submitted, toasts, progressLog := submitted + sent, toasts + shown, progressLog + log;
      if |questions| > 0 {
        progress := Progress(|questions| - 1, |questions|);
      }
    }
  }
  /**
   * The `for` loop of `handleUpload`: question i goes to `createQuestion`, which answers
   * `results[i]`; a rejection adds a toast, and the progress after item i is recorded.
   * Every question is sent, in order, whatever the earlier answers were.
   */
  method SubmitEach(questions: seq<UploadQuestion>, results: seq<CallResult>)
    returns (sent: seq<UploadQuestion>, shown: seq<Toast>, log: seq<real>)
    requires |results| == |questions|
    ensures sent == questions
    ensures shown == FailureToasts(questions, results, |questions|)
    ensures log == ProgressSteps(|questions|, |questions|)
  {
    var total := |questions|;
    sent, shown, log := [], [], [];
    var i := 0;
    while i < total
      invariant 0 <= i <= total
      invariant sent == questions[..i]
      invariant shown == FailureToasts(questions, results, i)
      invariant log == ProgressSteps(i, total)
    {
      var question := questions[i];
      sent := sent + [question];
      shown := shown + FailureToast(question, results[i]);
      log := log + [Progress(i, total)];
      assert questions[..i + 1] == questions[..i] + [question];
      ProgressStepsAppend(i, total);
      i := i + 1;
    }
    assert questions[..total] == questions;
  }
}
