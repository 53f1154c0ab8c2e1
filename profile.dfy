/**
 * components/user/UserProfile.tsx: `calculateProfileStats` (the averages, the
 * best score, the average of the five most recent results, the per-difficulty
 * and per-category averages and the activity streak) and `getInitials`.
 * `now` is the clock reading supplied by the caller, in milliseconds.
 */
module Profile {
  import opened Wrappers
  import opened Seqs
  import opened JsText
  import opened Scoring

  const DayMs: int := 86400000

  /** The parts of a `UserProfile` the statistics read. */
  datatype UserProfile = UserProfile(quizResults: seq<Attempt>, createdQuizzes: seq<string>)

  /** A group's running `{ total, count }`. */
  datatype Bucket = Bucket(total: real, count: nat)

  /**
   * The accumulator object of the group-by `reduce`: its buckets, and its keys in the
   * order they were first added (the order `Object.entries` lists them in).
   */
  datatype Groups = Groups(keys: seq<string>, buckets: map<string, Bucket>)

  /** Which field a group-by is keyed on: `result.quiz.difficulty` or `result.quiz.category.name`. */
  datatype GroupKey = ByDifficulty | ByCategory

  function KeyOf(on: GroupKey, r: Attempt): string {
    match on
    case ByDifficulty => r.difficulty
    case ByCategory => r.category
  }

  /**
   * The property names a plain `{}` inherits from `Object.prototype`. For such a key `acc[key]`
   * is an inherited function (or, for "__proto__", the prototype itself), which is truthy: no
   * bucket is made, the `+=` lands on that inherited object, and `Object.entries` never lists
   * the key.
   */
  const InheritedKeys: set<string> := {
    "constructor", "__defineGetter__", "__defineSetter__", "hasOwnProperty",
    "__lookupGetter__", "__lookupSetter__", "isPrototypeOf", "propertyIsEnumerable",
    "toString", "valueOf", "__proto__", "toLocaleString"}

  /**
   * The `reduce` callback: create the bucket on first sight, then add the percentage and count
   * one. An inherited key leaves the accumulator's own entries as they were.
   */
  function AddTo(g: Groups, key: string, p: real, inherited: set<string>): Groups {
    if key in inherited then g
    else if key in g.buckets then
      Groups(g.keys, g.buckets[key := Bucket(g.buckets[key].total + p, g.buckets[key].count + 1)])
    else
      Groups(g.keys + [key], g.buckets[key := Bucket(p, 1)])
  }

  /** What the group-by `reduce` leaves in its accumulator after the results `rs`. */
  function Tally(rs: seq<Attempt>, on: GroupKey, inherited: set<string>): Groups
    requires Scorable(rs)
  {
    if rs == [] then Groups([], map[])
    else
      var n := |rs| - 1;
      AddTo(Tally(rs[..n], on, inherited), KeyOf(on, rs[n]), Percentage(rs[n]), inherited)
  }

  /** `performanceByDifficulty` / `categoryPerformance`: the in-place accumulation, one result at a time. */
  method GroupPerformance(rs: seq<Attempt>, on: GroupKey, inherited: set<string>) returns (g: Groups)
    requires Scorable(rs)
    ensures g == Tally(rs, on, inherited)
  {
    g := Groups([], map[]);
    var i := 0;
    while i < |rs|
      invariant 0 <= i <= |rs|
      invariant g == Tally(rs[..i], on, inherited)
    {
      var key := KeyOf(on, rs[i]);
      var p := Percentage(rs[i]);
      if key in inherited {
        // the sum and count go to the inherited member, outside the accumulator's own entries
      } else if key in g.buckets {
        var b := g.buckets[key];
        g := g.(buckets := g.buckets[key := Bucket(b.total + p, b.count + 1)]);
      } else {
        g := Groups(g.keys + [key], g.buckets[key := Bucket(p, 1)]);
      }
      assert rs[..i + 1][..i] == rs[..i];
      i := i + 1;
    }
    assert rs[..|rs|] == rs;
  }

  /** Each key is listed once, the listed keys are exactly the buckets, and no bucket is empty. */
  predicate WellFormed(g: Groups) {
    (forall i, j :: 0 <= i < j < |g.keys| ==> g.keys[i] != g.keys[j]) &&
    (forall k :: k in g.buckets ==> k in g.keys) &&
    (forall k :: k in g.keys ==> k in g.buckets) &&
    (forall k :: k in g.buckets ==> g.buckets[k].count >= 1)
  }

  lemma {:induction false} TallyWellFormed(rs: seq<Attempt>, on: GroupKey, inherited: set<string>)
    requires Scorable(rs)
    ensures WellFormed(Tally(rs, on, inherited))
  {
    if rs != [] {
      var n := |rs| - 1;
      TallyWellFormed(rs[..n], on, inherited);
    }
  }

  /** The results of one group, in their original order. */
  function Group(rs: seq<Attempt>, on: GroupKey, key: string): (r: seq<Attempt>)
    requires Scorable(rs)
    ensures Scorable(r)
  {
    var r := Filter(rs, x => KeyOf(on, x) == key);
    forall k | 0 <= k < |r| ensures r[k].totalPossibleScore != 0 {
      assert r[k] in r;
      var m :| 0 <= m < |rs| && rs[m] == r[k];
    }
    r
  }

  /** A result is in a group exactly when it carries the group's key. */
  lemma GroupMembership(rs: seq<Attempt>, on: GroupKey, key: string, x: Attempt)
    requires Scorable(rs)
    ensures x in Group(rs, on, key) <==> x in rs && KeyOf(on, x) == key
  {
    FilterMembership(rs, x => KeyOf(on, x) == key, x);
  }

  lemma PercentagesAppend(rs: seq<Attempt>, x: Attempt)
    requires Scorable(rs) && x.totalPossibleScore != 0
    ensures Scorable(rs + [x])
    ensures Percentages(rs + [x]) == Percentages(rs) + [Percentage(x)]
  {
    assert forall k :: 0 <= k < |rs| ==> (rs + [x])[k] == rs[k];
  }

  lemma GroupStep(rs: seq<Attempt>, on: GroupKey, key: string)
    requires Scorable(rs) && rs != []
    ensures Scorable(rs[..|rs| - 1])
    ensures Group(rs, on, key) ==
      Group(rs[..|rs| - 1], on, key) + (if KeyOf(on, rs[|rs| - 1]) == key then [rs[|rs| - 1]] else [])
  {
    var n := |rs| - 1;
    assert rs == rs[..n] + [rs[n]];
    FilterAppend(rs[..n], rs[n], x => KeyOf(on, x) == key);
  }

  /**
   * The accumulator has a bucket for a key exactly when the key is not inherited and some
   * result carries it, and that bucket holds the sum of the group's percentages and the size
   * of the group.
   */
  lemma {:induction false} TallyBuckets(rs: seq<Attempt>, on: GroupKey, key: string, inherited: set<string>)
    requires Scorable(rs)
    ensures key in Tally(rs, on, inherited).buckets <==> key !in inherited && Group(rs, on, key) != []
    ensures key in Tally(rs, on, inherited).buckets ==>
      Tally(rs, on, inherited).buckets[key] == Bucket(Sum(Percentages(Group(rs, on, key))), |Group(rs, on, key)|)
  {
    if rs != [] {
      var n := |rs| - 1;
      GroupStep(rs, on, key);
      TallyBuckets(rs[..n], on, key, inherited);
      if key in inherited {
      } else if KeyOf(on, rs[n]) == key {
        TallyStepSameKey(rs, on, key, inherited);
      } else {
        assert Group(rs[..n], on, key) + [] == Group(rs[..n], on, key);
      }
    }
  }

  /** The step of `TallyBuckets` for a last result that joins the group. */
  lemma TallyStepSameKey(rs: seq<Attempt>, on: GroupKey, key: string, inherited: set<string>)
    requires Scorable(rs) && rs != [] && KeyOf(on, rs[|rs| - 1]) == key && key !in inherited
    requires Scorable(rs[..|rs| - 1])
    requires key in Tally(rs[..|rs| - 1], on, inherited).buckets <==> Group(rs[..|rs| - 1], on, key) != []
    requires key in Tally(rs[..|rs| - 1], on, inherited).buckets ==>
      Tally(rs[..|rs| - 1], on, inherited).buckets[key] ==
        Bucket(Sum(Percentages(Group(rs[..|rs| - 1], on, key))), |Group(rs[..|rs| - 1], on, key)|)
    requires Group(rs, on, key) == Group(rs[..|rs| - 1], on, key) + [rs[|rs| - 1]]
    ensures key in Tally(rs, on, inherited).buckets
    ensures Tally(rs, on, inherited).buckets[key] == Bucket(Sum(Percentages(Group(rs, on, key))), |Group(rs, on, key)|)
  {
    var n := |rs| - 1;
    var x := rs[n];
    var before := Group(rs[..n], on, key);
    var p := Percentage(x);
    PercentagesAppend(before, x);
    SumAppend(Percentages(before), p);
    if before == [] {
      assert Percentages(before) == [];
    }
  }

  /** `data.total / data.count` for every key, in key order. */
  function Averages(g: Groups): (r: seq<(string, real)>)
    requires WellFormed(g)
    ensures |r| == |g.keys|
    ensures forall i :: 0 <= i < |r| ==>
      r[i].0 == g.keys[i] && r[i].1 == g.buckets[g.keys[i]].total / g.buckets[g.keys[i]].count as real
  {
    seq(|g.keys|, i requires 0 <= i < |g.keys| && WellFormed(g) =>
      (g.keys[i], g.buckets[g.keys[i]].total / g.buckets[g.keys[i]].count as real))
  }

  /** Every group average is the mean of that group's percentages. */
  lemma AverageIsGroupMean(rs: seq<Attempt>, on: GroupKey, inherited: set<string>, i: nat)
    requires Scorable(rs)
    requires i < |Tally(rs, on, inherited).keys|
    ensures WellFormed(Tally(rs, on, inherited))
    ensures Group(rs, on, Tally(rs, on, inherited).keys[i]) != []
    ensures Averages(Tally(rs, on, inherited))[i].1 == Mean(Percentages(Group(rs, on, Tally(rs, on, inherited).keys[i])))
  {
    TallyWellFormed(rs, on, inherited);
    TallyBuckets(rs, on, Tally(rs, on, inherited).keys[i], inherited);
  }

  /** A category called "constructor" gets no average: its result is added to `Object` instead. */
  lemma InheritedCategoryNotListed(r: Attempt)
    requires r.totalPossibleScore != 0 && r.category == "constructor"
    ensures Scorable([r]) && WellFormed(Tally([r], ByCategory, InheritedKeys))
    ensures Averages(Tally([r], ByCategory, InheritedKeys)) == []
  {
    assert [r][..0] == [];
  }

  /** No reported average is for an inherited name. */
  lemma InheritedNeverListed(rs: seq<Attempt>, on: GroupKey, inherited: set<string>, i: nat)
    requires Scorable(rs)
    requires i < |Tally(rs, on, inherited).keys|
    ensures Tally(rs, on, inherited).keys[i] !in inherited
  {
    TallyWellFormed(rs, on, inherited);
    TallyBuckets(rs, on, Tally(rs, on, inherited).keys[i], inherited);
  }

  /** The sum of the bucket counts, key by key. */
  function CountSum(keys: seq<string>, buckets: map<string, Bucket>): nat {
    if keys == [] then 0
    else
      var k := keys[|keys| - 1];
      CountSum(keys[..|keys| - 1], buckets) + (if k in buckets then buckets[k].count else 0)
  }

  lemma {:induction false} CountSumFrame(keys: seq<string>, buckets: map<string, Bucket>, key: string, b: Bucket)
    requires key !in keys
    ensures CountSum(keys, buckets[key := b]) == CountSum(keys, buckets)
  {
    if keys != [] {
      CountSumFrame(keys[..|keys| - 1], buckets, key, b);
    }
  }

  lemma {:induction false} CountSumBump(keys: seq<string>, buckets: map<string, Bucket>, key: string, p: real)
    requires key in buckets
    requires forall i, j :: 0 <= i < j < |keys| ==> keys[i] != keys[j]
    requires key in keys
    ensures CountSum(keys, buckets[key := Bucket(buckets[key].total + p, buckets[key].count + 1)]) ==
      CountSum(keys, buckets) + 1
  {
    var n := |keys| - 1;
    var b := Bucket(buckets[key].total + p, buckets[key].count + 1);
    if keys[n] == key {
      assert key !in keys[..n];
      CountSumFrame(keys[..n], buckets, key, b);
    } else {
      assert key in keys[..n];
      CountSumBump(keys[..n], buckets, key, p);
    }
  }

  lemma CountSumNewKey(keys: seq<string>, buckets: map<string, Bucket>, key: string, b: Bucket)
    requires key !in keys
    ensures CountSum(keys + [key], buckets[key := b]) == CountSum(keys, buckets) + b.count
  {
    assert (keys + [key])[..|keys|] == keys;
    CountSumFrame(keys, buckets, key, b);
  }

  /** Whether a result's key gets a bucket of its own, that is, is not an inherited name. */
  function Listed(on: GroupKey, inherited: set<string>): Attempt -> bool {
    x => KeyOf(on, x) !in inherited
  }

  /**
   * Every result whose key is not inherited is counted in exactly one group: the counts add up
   * to the number of those results, and to the number of all results when no key is inherited.
   */
  lemma CountsSumToTotal(rs: seq<Attempt>, on: GroupKey, inherited: set<string>)
    requires Scorable(rs)
    ensures CountSum(Tally(rs, on, inherited).keys, Tally(rs, on, inherited).buckets) == |Filter(rs, Listed(on, inherited))|
    ensures (forall k :: 0 <= k < |rs| ==> KeyOf(on, rs[k]) !in inherited) ==>
      CountSum(Tally(rs, on, inherited).keys, Tally(rs, on, inherited).buckets) == |rs|
  {
    CountsSumListed(rs, on, inherited);
    if forall k :: 0 <= k < |rs| ==> KeyOf(on, rs[k]) !in inherited {
      FilterKeepsAll(rs, Listed(on, inherited));
    }
  }

  lemma {:induction false} CountsSumListed(rs: seq<Attempt>, on: GroupKey, inherited: set<string>)
    requires Scorable(rs)
    ensures CountSum(Tally(rs, on, inherited).keys, Tally(rs, on, inherited).buckets) == |Filter(rs, Listed(on, inherited))|
  {
    if rs != [] {
      var n := |rs| - 1;
      var front := rs[..n];
      CountsSumListed(front, on, inherited);
      TallyWellFormed(front, on, inherited);
      var key := KeyOf(on, rs[n]);
      var prev := Tally(front, on, inherited);
      assert Tally(rs, on, inherited) == AddTo(prev, key, Percentage(rs[n]), inherited);
      CountStep(prev, key, Percentage(rs[n]), inherited);
      ListedStep(rs, on, inherited);
    }
  }

  lemma ListedStep(rs: seq<Attempt>, on: GroupKey, inherited: set<string>)
    requires rs != []
    ensures |Filter(rs, Listed(on, inherited))| ==
      |Filter(rs[..|rs| - 1], Listed(on, inherited))| + (if KeyOf(on, rs[|rs| - 1]) in inherited then 0 else 1)
  {
    var n := |rs| - 1;
    assert rs == rs[..n] + [rs[n]];
    FilterAppend(rs[..n], rs[n], Listed(on, inherited));
  }

  /** Adding one result to a well-formed accumulator raises the count total by one, unless its key is inherited. */
  lemma CountStep(g: Groups, key: string, p: real, inherited: set<string>)
    requires WellFormed(g)
    ensures CountSum(AddTo(g, key, p, inherited).keys, AddTo(g, key, p, inherited).buckets) ==
      CountSum(g.keys, g.buckets) + (if key in inherited then 0 else 1)
  {
    if key in inherited {
    } else if key in g.buckets {
      CountSumBump(g.keys, g.buckets, key, p);
    } else {
      CountSumNewKey(g.keys, g.buckets, key, Bucket(p, 1));
    }
  }

  /** `Math.floor((today - completed) / DAY) <= 7`; `/` on `int` rounds down for a positive divisor. */
  predicate InStreak(now: int, r: Attempt) {
    (now - r.completed) / DayMs <= 7
  }

  /** The streak window is eight whole days wide: a result counts iff it was completed less than 8 days before `now` (or later). */
  lemma InStreakWindow(now: int, r: Attempt)
    ensures InStreak(now, r) <==> r.completed > now - 8 * DayMs
  {
  }

  /** `streak`: the results inside the window, counted one by one. */
  function Streak(rs: seq<Attempt>, now: int): (n: nat)
    ensures n <= |rs|
    ensures n == |Filter(rs, r => InStreak(now, r))|
  {
    if rs == [] then 0 else (if InStreak(now, rs[0]) then 1 else 0) + Streak(rs[1..], now)
  }

  function NewestFirst(r: Attempt): real {
    -(r.completed as real)
  }

  /** `[...results].sort(newest first).slice(0, 5)`: the five most recent results, from a sorted copy. */
  function RecentQuizzes(rs: seq<Attempt>): (r: seq<Attempt>)
    ensures |r| == if |rs| < 5 then |rs| else 5
    ensures multiset(r) <= multiset(rs)
  {
    var sorted := SortBy(rs, NewestFirst);
    var m := if |rs| < 5 then |rs| else 5;
    assert sorted == sorted[..m] + sorted[m..];
    sorted[..m]
  }

  /** The recent results are listed newest first. */
  lemma RecentNewestFirst(rs: seq<Attempt>)
    ensures forall i, j :: 0 <= i < j < |RecentQuizzes(rs)| ==>
      RecentQuizzes(rs)[j].completed <= RecentQuizzes(rs)[i].completed
  {
    var sorted := SortBy(rs, NewestFirst);
    var m := if |rs| < 5 then |rs| else 5;
    var r := sorted[..m];
    assert r == RecentQuizzes(rs);
    forall i, j | 0 <= i < j < |r| ensures r[j].completed <= r[i].completed {
      assert NewestFirst(sorted[i]) <= NewestFirst(sorted[j]);
    }
  }

  /** No result left out of the recent ones was completed later than any of them. */
  lemma RecentAreNewest(rs: seq<Attempt>, y: Attempt)
    requires y in multiset(rs) - multiset(RecentQuizzes(rs))
    ensures forall i :: 0 <= i < |RecentQuizzes(rs)| ==> y.completed <= RecentQuizzes(rs)[i].completed
  {
    var sorted := SortBy(rs, NewestFirst);
    var m := if |rs| < 5 then |rs| else 5;
    assert sorted[..m] == RecentQuizzes(rs);
    SortedPrefixLeast(sorted, NewestFirst, m, y);
    forall i | 0 <= i < m ensures y.completed <= sorted[i].completed {
      assert NewestFirst(sorted[i]) <= NewestFirst(y);
    }
  }

  /**
   * Among results completed at the same instant, the recent ones are the earliest in input
   * order: for every sort key `t` (minus a completion time), the chosen results with that key
   * are a prefix of the input's results with that key.
   */
  lemma RecentTiesInInputOrder(rs: seq<Attempt>, t: real)
    ensures |Filter(RecentQuizzes(rs), HasKey(NewestFirst, t))| <= |Filter(rs, HasKey(NewestFirst, t))|
    ensures Filter(RecentQuizzes(rs), HasKey(NewestFirst, t)) ==
      Filter(rs, HasKey(NewestFirst, t))[..|Filter(RecentQuizzes(rs), HasKey(NewestFirst, t))|]
  {
    var p := HasKey(NewestFirst, t);
    var sorted := SortBy(rs, NewestFirst);
    var m := if |rs| < 5 then |rs| else 5;
    assert sorted == sorted[..m] + sorted[m..];
    assert sorted[..m] == RecentQuizzes(rs);
    FilterConcat(sorted[..m], sorted[m..], p);
    SortByIsStable(rs, NewestFirst, t);
    var g := Filter(sorted[..m], p);
    assert Filter(rs, p) == g + Filter(sorted[m..], p);
    assert Filter(rs, p)[..|g|] == g;
  }

  /** `recentAverage`: the mean over the recent results, or 0 when there are none. */
  function RecentAverage(rs: seq<Attempt>): (a: real)
    requires Scorable(rs)
    ensures rs == [] ==> a == 0.0
    ensures rs != [] ==> Scorable(RecentQuizzes(rs)) && a == Mean(Percentages(RecentQuizzes(rs)))
  {
    var recent := RecentQuizzes(rs);
    ScorableSubset(recent, rs);
    if recent == [] then 0.0 else Mean(Percentages(recent))
  }

  /** A user with at most five results gets the same recent and overall average. */
  lemma FewResultsRecentIsOverall(rs: seq<Attempt>)
    requires Scorable(rs) && 1 <= |rs| <= 5
    ensures Scorable(RecentQuizzes(rs))
    ensures multiset(RecentQuizzes(rs)) == multiset(rs)
  {
    var r := RecentQuizzes(rs);
    ScorableSubset(r, rs);
    assert |multiset(r)| == |multiset(rs)|;
    MultisetSubsetSameSize(multiset(r), multiset(rs));
  }

  lemma MultisetSubsetSameSize<T>(a: multiset<T>, b: multiset<T>)
    requires a <= b && |a| == |b|
    ensures a == b
  {
    assert |b - a| == |b| - |a|;
    assert b == a + (b - a);
  }

  /** The record `calculateProfileStats` returns, with the `toFixed(1)` strings kept as numbers. */
  datatype ProfileStats = ProfileStats(
    averageScore: real,
    totalQuizzes: nat,
    createdQuizzes: nat,
    bestScore: real,
    recentAverage: real,
    streak: nat,
    difficultyAverages: seq<(string, real)>,
    categoryAverages: seq<(string, real)>)

  /** `calculateProfileStats(profile)`. */
  method CalculateProfileStats(profile: UserProfile, now: int) returns (s: ProfileStats)
    requires Scorable(profile.quizResults)
    ensures s.totalQuizzes == |profile.quizResults| && s.createdQuizzes == |profile.createdQuizzes|
    ensures profile.quizResults == [] ==> s.averageScore == 0.0 && s.bestScore == 0.0 && s.recentAverage == 0.0
    ensures profile.quizResults != [] ==>
      s.averageScore == Mean(Percentages(profile.quizResults)) &&
      s.bestScore in Percentages(profile.quizResults) &&
      (forall k :: 0 <= k < |profile.quizResults| ==> Percentage(profile.quizResults[k]) <= s.bestScore) &&
      s.averageScore <= s.bestScore
    ensures s.recentAverage == RecentAverage(profile.quizResults)
    ensures s.streak == Streak(profile.quizResults, now) && s.streak <= s.totalQuizzes
    ensures WellFormed(Tally(profile.quizResults, ByDifficulty, InheritedKeys)) && WellFormed(Tally(profile.quizResults, ByCategory, InheritedKeys))
    ensures s.difficultyAverages == Averages(Tally(profile.quizResults, ByDifficulty, InheritedKeys))
    ensures s.categoryAverages == Averages(Tally(profile.quizResults, ByCategory, InheritedKeys))
  {
    var rs := profile.quizResults;
    var scores := Percentages(rs);
    var average := 0.0;
    var best := 0.0;
    if |rs| > 0 {
      average := Mean(scores);
      best := Max(scores);
      MeanAtMostMax(scores);
    }
    var byDifficulty := GroupPerformance(rs, ByDifficulty, InheritedKeys);
    var byCategory := GroupPerformance(rs, ByCategory, InheritedKeys);
    TallyWellFormed(rs, ByDifficulty, InheritedKeys);
    TallyWellFormed(rs, ByCategory, InheritedKeys);
    s := ProfileStats(average, |rs|, |profile.createdQuizzes|, best, RecentAverage(rs), Streak(rs, now),
      Averages(byDifficulty), Averages(byCategory));
  }

  /** `getInitials(name)`: `null` (like "") yields "", otherwise the upper-cased first letters of the words. */
  function ProfileInitials(name: Option<string>): (r: string)
    ensures name.None? || name == Some("") ==> r == ""
    ensures name.Some? ==> r == Initials(name.value)
  {
    Initials(name.GetOr(""))
  }
}
