/**
 * components/user/QuizPerformanceTracker.tsx: the time-window filter over a
 * user's results, kept in ascending completion order, and the statistics
 * record shown above the charts. `now` is the clock reading supplied by the
 * caller, in milliseconds.
 */
module Tracker {
  import opened Wrappers
  import opened Seqs
  import opened JsText
  import opened Scoring

  /** `1000 * 60 * 60 * 24`. */
  const DayMs: nat := 86400000

  /** `Math.ceil(x / d)` for a non-negative `x` and a positive `d`. */
  function CeilDiv(x: nat, d: nat): (q: nat)
    requires d > 0
    ensures (q - 1) * d < x <= q * d || (x == 0 && q == 0)
  {
    (x + d - 1) / d
  }

  /** `Math.ceil(Math.abs(now - completed) / DAY)`: whole days, rounded up, between the two instants. */
  function AgeInDays(now: int, completed: int): nat {
    CeilDiv(if now >= completed then now - completed else completed - now, DayMs)
  }

  /** The value `days` takes: `Infinity` for "all", otherwise `parseInt(timeRange)`, which may be NaN. */
  datatype DayLimit = Unlimited | NotANumber | Finite(days: int)

  function LimitOf(timeRange: string): (l: DayLimit)
    ensures timeRange == "all" <==> l == Unlimited
    ensures l.NotANumber? <==> timeRange != "all" && ParseInt(timeRange).None?
    ensures l.Finite? ==> ParseInt(timeRange) == Some(l.days)
  {
    if timeRange == "all" then Unlimited
    else match ParseInt(timeRange)
      case None => NotANumber
      case Some(d) => Finite(d)
  }

  /** `diffDays <= days`; every comparison with NaN is false. */
  predicate Keeps(l: DayLimit, now: int, r: Attempt) {
    match l
    case Unlimited => true
    case NotANumber => false
    case Finite(d) => AgeInDays(now, r.completed) <= d
  }

  /** The filter callback, `Keeps` for a fixed limit and clock reading. */
  function InWindow(l: DayLimit, now: int): Attempt -> bool {
    x => Keeps(l, now, x)
  }

  function CompletedKey(r: Attempt): real {
    r.completed as real
  }

  /** `filteredResults`: the results inside the window, sorted by completion time, earliest first. */
  function FilteredResults(results: seq<Attempt>, timeRange: string, now: int): (r: seq<Attempt>)
    ensures SortedBy(r, CompletedKey)
    ensures multiset(r) <= multiset(results)
    ensures forall x :: multiset(r)[x] == if Keeps(LimitOf(timeRange), now, x) then multiset(results)[x] else 0
    ensures forall x :: x in r <==> x in results && Keeps(LimitOf(timeRange), now, x)
  {
    var l := LimitOf(timeRange);
    var kept := Filter(results, InWindow(l, now));
    FilterMultiset(results, InWindow(l, now));
    FilterIsSubsequence(results, InWindow(l, now));
    SubsequenceMultiset(kept, results);
    forall x ensures x in kept <==> x in results && Keeps(l, now, x) {
      FilterMembership(results, InWindow(l, now), x);
    }
    var r := SortBy(kept, CompletedKey);
    assert forall x :: x in r <==> x in multiset(r);
    r
  }

  /**
   * Results completed at the same instant keep their input order: among the results with
   * completion time `t`, the window lists exactly those it keeps, in the order they came.
   * So which of them is first or last, as `ImprovementRate` and `RecentTrend` read it, is
   * decided by the input order.
   */
  lemma SameTimeInInputOrder(results: seq<Attempt>, timeRange: string, now: int, t: real)
    ensures Filter(FilteredResults(results, timeRange, now), HasKey(CompletedKey, t)) ==
      Filter(Filter(results, InWindow(LimitOf(timeRange), now)), HasKey(CompletedKey, t))
  {
    SortByIsStable(Filter(results, InWindow(LimitOf(timeRange), now)), CompletedKey, t);
  }

  /** "all" keeps every result: the window only reorders. */
  lemma AllTimeKeepsEverything(results: seq<Attempt>, now: int)
    ensures multiset(FilteredResults(results, "all", now)) == multiset(results)
  {
    var l := LimitOf("all");
    FilterKeepsAll(results, InWindow(l, now));
  }

  /** A key `<digits>days` of the range selector, such as `"7days"`, means that many days. */
  lemma DaysKey(ds: string)
    requires |ds| >= 1 && forall k :: 0 <= k < |ds| ==> IsDecimalDigit(ds[k])
    ensures forall k :: 0 <= k < |ds| ==> DigitValue(ds[k], 10).Some?
    ensures LimitOf(ds + "days") == Finite(DigitsValue(ds, 10))
  {
    ParseIntOfDigitsThen(ds, "days");
    assert (ds + "days")[|ds|] == 'd';
  }

  /** A result completed less than one full day ago is inside every window but a negative one. */
  lemma SameDayIsKept(now: int, r: Attempt, d: int)
    requires now - DayMs < r.completed <= now && d >= 1
    ensures Keeps(Finite(d), now, r)
  {
  }

  /** The statistics record; NaN and `-Infinity` results are `None`. */
  datatype Stats = Stats(
    averageScore: Option<real>,
    totalQuizzes: nat,
    bestScore: Option<real>,
    recentTrend: real,
    improvementRate: Option<real>,
    consistencyScore: real)

  /** Sum of squared deviations from `m`. */
  function SquaredDeviations(xs: seq<real>, m: real): (r: seq<real>)
    ensures |r| == |xs|
    ensures forall k :: 0 <= k < |xs| ==> r[k] == (xs[k] - m) * (xs[k] - m)
  {
    seq(|xs|, k requires 0 <= k < |xs| => (xs[k] - m) * (xs[k] - m))
  }

  /** The population variance: the mean squared deviation from the mean, dividing by n. */
  function Variance(xs: seq<real>): real
    requires xs != []
  {
    Mean(SquaredDeviations(xs, Mean(xs)))
  }

  lemma VarianceNonNegative(xs: seq<real>)
    requires xs != []
    ensures Variance(xs) >= 0.0
  {
    var d := SquaredDeviations(xs, Mean(xs));
    forall k | 0 <= k < |d| ensures 0.0 <= d[k] <= MaxOrZero(d) {
      SquareNonNegative(xs[k] - Mean(xs));
    }
    MeanBetween(d, 0.0, MaxOrZero(d));
  }

  lemma SquareNonNegative(x: real)
    ensures x * x >= 0.0
  {
    if x < 0.0 {
      assert x * x == (-x) * (-x);
    }
  }

  /** An upper bound of a list of non-negative reals. */
  function MaxOrZero(xs: seq<real>): (m: real)
    ensures forall k :: 0 <= k < |xs| ==> xs[k] <= m
    ensures m >= 0.0
  {
    if xs == [] then 0.0 else Max(xs) + (if Max(xs) < 0.0 then -Max(xs) else 0.0)
  }

  /** Equal scores have no spread. */
  lemma {:induction false} ConstantHasZeroVariance(xs: seq<real>, c: real)
    requires xs != [] && forall k :: 0 <= k < |xs| ==> xs[k] == c
    ensures Variance(xs) == 0.0
  {
    MeanOfConstant(xs, c);
    var d := SquaredDeviations(xs, c);
    MeanOfConstant(d, 0.0);
  }

  /**
   * `calculateConsistencyScore(scores)`: 100 for fewer than two scores, otherwise
   * `max(0, 100 - 2 * sd)` where `sd` is the square root of the population variance
   * (supplied, as `Math.sqrt` is not modelled).
   */
  function Consistency(scores: seq<real>, sd: real): (c: real)
    requires |scores| >= 2 ==> sd >= 0.0 && sd * sd == Variance(scores)
    ensures 0.0 <= c <= 100.0
    ensures |scores| < 2 ==> c == 100.0
    ensures |scores| >= 2 ==> (c == 100.0 <==> sd == 0.0)
    ensures |scores| >= 2 ==> (c == 0.0 <==> sd >= 50.0)
  {
    if |scores| < 2 then 100.0
    else
      var v := 100.0 - sd * 2.0;
      if v > 0.0 then v else 0.0
  }

  /** A run of identical scores is perfectly consistent. */
  lemma IdenticalScoresFullyConsistent(scores: seq<real>, c: real)
    requires |scores| >= 2 && forall k :: 0 <= k < |scores| ==> scores[k] == c
    ensures Variance(scores) == 0.0 && Consistency(scores, 0.0) == 100.0
  {
    ConstantHasZeroVariance(scores, c);
  }

  /** `calculateImprovementRate(results)`: the relative change, in percent, from the first to the last result. */
  function ImprovementRate(rs: seq<Attempt>): (r: Option<real>)
    requires Scorable(rs)
    ensures |rs| < 2 ==> r == Some(0.0)
    ensures |rs| >= 2 ==> (r.None? <==> Percentage(rs[0]) == 0.0)
    ensures |rs| >= 2 && r.Some? ==>
      r.value * Percentage(rs[0]) == (Percentage(rs[|rs| - 1]) - Percentage(rs[0])) * 100.0
  {
    if |rs| < 2 then Some(0.0)
    else
      var first := Percentage(rs[0]);
      var last := Percentage(rs[|rs| - 1]);
      if first == 0.0 then None
      else
        assert (last - first) / first * first == last - first;
        Some((last - first) / first * 100.0)
  }

  /** With a positive first score the rate is positive iff the last result beats the first, and zero iff they tie. */
  lemma ImprovementSign(rs: seq<Attempt>)
    requires Scorable(rs) && |rs| >= 2 && Percentage(rs[0]) > 0.0
    ensures ImprovementRate(rs).Some?
    ensures ImprovementRate(rs).value > 0.0 <==> Percentage(rs[|rs| - 1]) > Percentage(rs[0])
    ensures ImprovementRate(rs).value == 0.0 <==> Percentage(rs[|rs| - 1]) == Percentage(rs[0])
  {
    var f := Percentage(rs[0]);
    var d := Percentage(rs[|rs| - 1]) - f;
    assert ImprovementRate(rs).value == d / f * 100.0;
    QuotientSign(d, f);
  }

  lemma QuotientSign(d: real, f: real)
    requires f > 0.0
    ensures d / f * 100.0 > 0.0 <==> d > 0.0
    ensures d / f * 100.0 == 0.0 <==> d == 0.0
  {
    assert d / f * f == d;
    if d / f > 0.0 { assert d / f * f > 0.0 * f; }
    if d / f < 0.0 { assert (-(d / f)) * f > 0.0 * f; }
  }

  /** `recentTrend`: last minus second-to-last percentage, or 0 with fewer than two results. */
  function RecentTrend(rs: seq<Attempt>): (t: real)
    requires Scorable(rs)
    ensures |rs| < 2 ==> t == 0.0
    ensures |rs| >= 2 ==> (t > 0.0 <==> Percentage(rs[|rs| - 1]) > Percentage(rs[|rs| - 2]))
  {
    if |rs| >= 2 then Percentage(rs[|rs| - 1]) - Percentage(rs[|rs| - 2]) else 0.0
  }

  /** What `Math.sqrt(variance)` must return for the scores of `rs`. */
  predicate IsDeviation(rs: seq<Attempt>, sd: real)
    requires Scorable(rs)
  {
    |rs| >= 2 ==> sd >= 0.0 && sd * sd == Variance(Percentages(rs))
  }

  /** The `stats` record of the filtered results. */
  function ComputeStats(rs: seq<Attempt>, sd: real): (s: Stats)
    requires Scorable(rs) && IsDeviation(rs, sd)
    ensures s.totalQuizzes == |rs|
    ensures s.averageScore.None? <==> rs == []
    ensures s.bestScore.None? <==> rs == []
    ensures rs != [] ==> s.averageScore.value == Mean(Percentages(rs))
    ensures rs != [] ==> s.bestScore.value in Percentages(rs)
    ensures rs != [] ==> forall k :: 0 <= k < |rs| ==> Percentage(rs[k]) <= s.bestScore.value
    ensures rs != [] ==> s.averageScore.value <= s.bestScore.value
    ensures s.recentTrend == RecentTrend(rs) && s.improvementRate == ImprovementRate(rs)
    ensures s.consistencyScore == Consistency(Percentages(rs), sd)
    ensures 0.0 <= s.consistencyScore <= 100.0
    ensures |rs| < 2 ==> s.consistencyScore == 100.0
  {
    var scores := Percentages(rs);
    if rs == [] then
      Stats(None, 0, None, RecentTrend(rs), ImprovementRate(rs), Consistency(scores, sd))
    else
      MeanAtMostMax(scores);
      Stats(Some(Mean(scores)), |rs|, Some(Max(scores)), RecentTrend(rs), ImprovementRate(rs),
        Consistency(scores, sd))
  }

  /** The statistics of a window never mention a result outside it: every filtered result is scorable. */
  lemma FilteredScorable(results: seq<Attempt>, timeRange: string, now: int)
    requires Scorable(results)
    ensures Scorable(FilteredResults(results, timeRange, now))
  {
    ScorableSubset(FilteredResults(results, timeRange, now), results);
  }
}
