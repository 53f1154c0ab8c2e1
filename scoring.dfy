/**
 * The quiz-result record the statistics code reads, and the per-result
 * percentage `(score / totalPossibleScore) * 100` that every statistic is built on.
 */
module Scoring {
  /**
   * One completed attempt: the fields of a `UserQuizResult` row the statistics use,
   * with the quiz's difficulty and category name joined in. `completed` is a
   * timestamp in milliseconds.
   */
  datatype Attempt = Attempt(
    quizId: string,
    score: int,
    totalPossibleScore: int,
    totalQuestions: int,
    completed: int,
    difficulty: string,
    category: string)

  /** Every result has a non-zero denominator, so its percentage is a finite number. */
  predicate Scorable(rs: seq<Attempt>) {
    forall k :: 0 <= k < |rs| ==> rs[k].totalPossibleScore != 0
  }

  /** `(result.score / result.totalPossibleScore) * 100`. */
  function Percentage(r: Attempt): (p: real)
    requires r.totalPossibleScore != 0
    ensures 0 <= r.score <= r.totalPossibleScore ==> 0.0 <= p <= 100.0
    ensures p * r.totalPossibleScore as real == r.score as real * 100.0
  {
    PercentBounds(r.score as real, r.totalPossibleScore as real);
    (r.score as real / r.totalPossibleScore as real) * 100.0
  }

  lemma PercentBounds(s: real, t: real)
    requires t != 0.0
    ensures 0.0 <= s <= t ==> 0.0 <= (s / t) * 100.0 <= 100.0
    ensures (s / t) * 100.0 * t == s * 100.0
  {
    assert s / t * t == s;
    if 0.0 <= s <= t {
      assert t > 0.0;
      assert s / t <= 1.0;
    }
  }

  /** `results.map(r => (r.score / r.totalPossibleScore) * 100)`. */
  function Percentages(rs: seq<Attempt>): (ps: seq<real>)
    requires Scorable(rs)
    ensures |ps| == |rs|
    ensures forall k :: 0 <= k < |rs| ==> ps[k] == Percentage(rs[k])
  {
    seq(|rs|, k requires 0 <= k < |rs| && Scorable(rs) => Percentage(rs[k]))
  }

  /** A sub-list of scorable results is scorable. */
  lemma ScorableSubset(a: seq<Attempt>, b: seq<Attempt>)
    requires Scorable(b) && multiset(a) <= multiset(b)
    ensures Scorable(a)
  {
    forall k | 0 <= k < |a| ensures a[k].totalPossibleScore != 0 {
      assert a[k] in multiset(a);
      assert a[k] in multiset(b);
      var m :| 0 <= m < |b| && b[m] == a[k];
    }
  }
}
