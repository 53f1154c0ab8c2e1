/**
 * components/admin/results/index.tsx: the search over quiz results (by user id and quiz) and the
 * minutes/seconds display of the time taken. The page's results are a hard-coded sample list,
 * taken here as the parameter `results`.
 */
module AdminResults {
  import opened JsText
  import opened Seqs
  import opened Timer

  datatype QuizResult = QuizResult(
    id: string, userId: string, quizId: string, score: int, totalQuestions: int, timeTaken: int, date: string)

  /** The row filter: the user id contains the search term, ignoring case, and the quiz filter is off or matches. */
  predicate Shown(r: QuizResult, term: string, quiz: string) {
    IncludesIgnoringCase(r.userId, term) && (quiz == "" || r.quizId == quiz)
  }

  /** `filteredResults`. */
  function FilteredResults(results: seq<QuizResult>, term: string, quiz: string): (rs: seq<QuizResult>)
    ensures IsSubsequence(rs, results)
    ensures forall r :: r in rs <==> r in results && Shown(r, term, quiz)
    ensures forall r :: multiset(rs)[r] == if Shown(r, term, quiz) then multiset(results)[r] else 0
  {
    FilterMultiset(results, r => Shown(r, term, quiz));
    FilterIsSubsequence(results, r => Shown(r, term, quiz));
    forall r ensures r in Filter(results, r => Shown(r, term, quiz)) <==> r in results && Shown(r, term, quiz) {
      FilterMembership(results, r => Shown(r, term, quiz), r);
    }
    Filter(results, r => Shown(r, term, quiz))
  }

  /** With no search term and no quiz filter every result is listed, in its original order. */
  lemma NoFilterShowsAll(results: seq<QuizResult>)
    ensures FilteredResults(results, "", "") == results
  {
    forall k | 0 <= k < |results| ensures Shown(results[k], "", "") {
      assert ToLower("") == "";
      EmptyIncludedEverywhere(ToLower(results[k].userId));
    }
    FilterKeepsAll(results, r => Shown(r, "", ""));
  }

  /** The number shown before "m": `Math.floor(timeTaken / 60)`. */
  function Minutes(t: int): int {
    t / 60
  }

  /** The number shown before "s": `timeTaken % 60`, whose sign follows `timeTaken`. */
  function Seconds(t: int): int {
    JsRemainder(t, 60)
  }

  /** For a non-negative time the two numbers are its minutes and the leftover seconds. */
  lemma TimeSplit(t: int)
    requires t >= 0
    ensures 60 * Minutes(t) + Seconds(t) == t && 0 <= Seconds(t) < 60
  {
  }

  /** For a negative time the two parts do not add up: `Math.floor` rounds down but `%` keeps the sign. */
  lemma NegativeTimeSplit(t: int)
    requires t < 0 && t % 60 != 0
    ensures 60 * Minutes(t) + Seconds(t) != t
  {
    var q := t / 60;
    var r := (-t) % 60;
    assert 1 <= r < 60;
    assert Seconds(t) == -r;
    assert t == 60 * q + t % 60;
  }
}
