/**
 * actions/leaderboard.ts: the processing `getLeaderboard` applies to the users the
 * database returns (per-user average, quiz count, display name, last activity,
 * ordering by average). The database order of users is the order of the input list.
 */
module Leaderboard {
  import opened Wrappers
  import opened Seqs
  import opened Scoring

  /** The parameter default `limit = 10`. */
  const DefaultLimit: nat := 10

  /** The display name given to a user whose name is missing or empty. */
  const AnonymousName := "Anonymous User"

  /** A user row as selected: id, name, image and results (score, total, completion time). */
  datatype User = User(id: string, name: Option<string>, image: Option<string>, quizResults: seq<Attempt>)

  /** One element of `processedLeaderboard`; `lastActive` is `None` for the `null` of a user without results. */
  datatype Entry = Entry(
    id: string,
    name: string,
    image: Option<string>,
    averageScore: real,
    totalQuizzes: nat,
    lastActive: Option<int>)

  predicate AllScorable(us: seq<User>) {
    forall k :: 0 <= k < |us| ==> Scorable(us[k].quizResults)
  }

  /** `user.name || "Anonymous User"`: both `null` and the empty string are falsy. */
  function DisplayName(name: Option<string>): (r: string)
    ensures name.None? || name == Some("") ==> r == AnonymousName
    ensures name.Some? && name.value != "" ==> r == name.value
  {
    if name.Some? && name.value != "" then name.value else AnonymousName
  }

  /** `Math.max(...results.map(r => r.completed))`, or `null` when there are no results. */
  function LatestCompletion(rs: seq<Attempt>): (r: Option<int>)
    ensures r.None? <==> rs == []
    ensures r.Some? ==> (exists k :: 0 <= k < |rs| && rs[k].completed == r.value)
    ensures r.Some? ==> forall k :: 0 <= k < |rs| ==> rs[k].completed <= r.value
  {
    if rs == [] then None
    else
      var n := |rs| - 1;
      var before := LatestCompletion(rs[..n]);
      assert forall k :: 0 <= k < n ==> rs[..n][k] == rs[k];
      if before.None? || rs[n].completed > before.value then Some(rs[n].completed) else before
  }

  /** The `map` callback: the summary of one user. */
  function Summarize(u: User): (e: Entry)
    requires Scorable(u.quizResults)
    ensures e.id == u.id && e.image == u.image && e.name == DisplayName(u.name)
    ensures e.totalQuizzes == |u.quizResults|
    ensures u.quizResults == [] ==> e.averageScore == 0.0 && e.lastActive.None?
    ensures u.quizResults != [] ==> e.averageScore == Mean(Percentages(u.quizResults)) && e.lastActive.Some?
    ensures e.lastActive == LatestCompletion(u.quizResults)
  {
    var rs := u.quizResults;
    var average := if |rs| > 0 then Sum(Percentages(rs)) / |rs| as real else 0.0;
    Entry(u.id, DisplayName(u.name), u.image, average, |rs|, LatestCompletion(rs))
  }

  /** A user whose every score lies within its total gets an average between 0 and 100. */
  lemma AverageInRange(u: User)
    requires Scorable(u.quizResults)
    requires forall k :: 0 <= k < |u.quizResults| ==> 0 <= u.quizResults[k].score <= u.quizResults[k].totalPossibleScore
    ensures 0.0 <= Summarize(u).averageScore <= 100.0
  {
    var rs := u.quizResults;
    if rs != [] {
      var ps := Percentages(rs);
      forall k | 0 <= k < |ps| ensures 0.0 <= ps[k] <= 100.0 {
        assert ps[k] == Percentage(rs[k]);
      }
      MeanBetween(ps, 0.0, 100.0);
    }
  }

  function Summaries(us: seq<User>): (es: seq<Entry>)
    requires AllScorable(us)
    ensures |es| == |us|
    ensures forall k :: 0 <= k < |us| ==> es[k] == Summarize(us[k])
  {
    seq(|us|, k requires 0 <= k < |us| && AllScorable(us) => Summarize(us[k]))
  }

  /** `(a, b) => b.averageScore - a.averageScore` sorts by the negated average. */
  function HighestFirst(e: Entry): real {
    -e.averageScore
  }

  function Fetched(us: seq<User>, limit: nat): (r: seq<User>)
    ensures |r| == if |us| < limit then |us| else limit
    ensures r == us[..|r|]
  {
    us[..if |us| < limit then |us| else limit]
  }

  /**
   * `getLeaderboard(limit)` as written: `take: limit` fetches the first `limit` users in
   * database order, and only those are summarised and sorted by average, highest first.
   */
  function GetLeaderboard(us: seq<User>, limit: nat): (r: seq<Entry>)
    requires AllScorable(Fetched(us, limit))
    ensures |r| <= limit && |r| == |Fetched(us, limit)|
    ensures forall i, j :: 0 <= i < j < |r| ==> r[j].averageScore <= r[i].averageScore
    ensures multiset(r) == multiset(Summaries(Fetched(us, limit)))
  {
    var fetched := Fetched(us, limit);
    var r := SortBy(Summaries(fetched), HighestFirst);
    assert forall i, j :: 0 <= i < j < |r| ==> HighestFirst(r[i]) <= HighestFirst(r[j]);
    r
  }

  /** Two users in database order and a limit of one: the better user is never considered. */
  lemma GetLeaderboardMissesTopUser()
    ensures var first := User("a", None, None, [Attempt("q", 1, 2, 1, 0, "", "")]);
      var second := User("b", None, None, [Attempt("q", 2, 2, 1, 0, "", "")]);
      AllScorable([first, second]) &&
      GetLeaderboard([first, second], 1) == [Summarize(first)] &&
      Summarize(second).averageScore > Summarize(first).averageScore
  {
    var first := User("a", None, None, [Attempt("q", 1, 2, 1, 0, "", "")]);
    var second := User("b", None, None, [Attempt("q", 2, 2, 1, 0, "", "")]);
    var us := [first, second];
    assert Fetched(us, 1) == [first];
    var r := GetLeaderboard(us, 1);
    assert multiset(r) == multiset([Summarize(first)]);
    assert |r| == 1;
    assert r[0] in multiset(r);
    assert r == [Summarize(first)];
    assert Percentages(first.quizResults) == [50.0];
    assert Percentages(second.quizResults) == [100.0];
    assert Sum([50.0]) == 50.0 && Sum([100.0]) == 100.0;
  }

  /**
   * The intended leaderboard: every user summarised and ranked by average, highest first,
   * and the first `limit` of that ranking returned.
   */
  function TopUsers(us: seq<User>, limit: nat): (r: seq<Entry>)
    requires AllScorable(us)
    ensures |r| == if |us| < limit then |us| else limit
    ensures forall i, j :: 0 <= i < j < |r| ==> r[j].averageScore <= r[i].averageScore
    ensures multiset(r) <= multiset(Summaries(us))
  {
    var ranked := SortBy(Summaries(us), HighestFirst);
    var m := if |us| < limit then |us| else limit;
    assert ranked == ranked[..m] + ranked[m..];
    assert forall i, j :: 0 <= i < j < m ==> HighestFirst(ranked[i]) <= HighestFirst(ranked[j]);
    ranked[..m]
  }

  /** No user left off the intended leaderboard has a higher average than anyone on it. */
  lemma TopUsersAreBest(us: seq<User>, limit: nat, e: Entry)
    requires AllScorable(us)
    requires e in multiset(Summaries(us)) - multiset(TopUsers(us, limit))
    ensures forall i :: 0 <= i < |TopUsers(us, limit)| ==> e.averageScore <= TopUsers(us, limit)[i].averageScore
  {
    var ranked := SortBy(Summaries(us), HighestFirst);
    var m := if |us| < limit then |us| else limit;
    assert ranked[..m] == TopUsers(us, limit);
    SortedPrefixLeast(ranked, HighestFirst, m, e);
    forall i | 0 <= i < m ensures e.averageScore <= ranked[i].averageScore {
      assert HighestFirst(ranked[i]) <= HighestFirst(e);
    }
  }

  /** With no more users than the limit, both versions rank the same users. */
  lemma SmallTablesAgree(us: seq<User>, limit: nat)
    requires AllScorable(us) && |us| <= limit
    ensures multiset(GetLeaderboard(us, limit)) == multiset(TopUsers(us, limit))
  {
    assert Fetched(us, limit) == us;
    var ranked := SortBy(Summaries(us), HighestFirst);
    assert ranked[..|us|] == ranked;
  }
}

/**
 * components/user/leaderboard.tsx: each leaderboard entry becomes a card whose rank is
 * its position plus one, styled by `getRankStyle`, with the initials of the name.
 */
module LeaderboardCard {
  import opened Wrappers
  import opened JsText
  import opened Leaderboard

  datatype Icon = Trophy | Medal

  /** `{ icon, color, bgColor }`; `icon` is `None` for `null`. */
  datatype RankStyle = RankStyle(icon: Option<Icon>, color: string, bgColor: string)

  /** `getRankStyle(rank)`. */
  function RankStyleOf(rank: int): (s: RankStyle)
    ensures s.icon.Some? <==> 1 <= rank <= 3
    ensures s.icon == Some(Trophy) <==> rank == 1
    ensures rank !in {1, 2, 3} ==> s == RankStyle(None, "text-gray-600", "bg-gray-50")
  {
    match rank
    case 1 => RankStyle(Some(Trophy), "text-yellow-500", "bg-yellow-100")
    case 2 => RankStyle(Some(Medal), "text-gray-400", "bg-gray-100")
    case 3 => RankStyle(Some(Medal), "text-orange-400", "bg-orange-100")
    case _ => RankStyle(None, "text-gray-600", "bg-gray-50")
  }

  /** The three podium places are told apart by colour, and none looks like an ordinary rank. */
  lemma PodiumStylesDistinct(a: int, b: int)
    requires 1 <= a <= 3 && 1 <= b <= 3 && a != b
    ensures RankStyleOf(a).color != RankStyleOf(b).color
    ensures RankStyleOf(a).bgColor != RankStyleOf(b).bgColor
    ensures RankStyleOf(a).color != RankStyleOf(4).color
  {
  }

  /** What the rank badge shows: the icon, or else the rank number itself. */
  datatype Badge = IconBadge(icon: Icon) | NumberBadge(rank: int)

  function BadgeOf(rank: int): (b: Badge)
    ensures b.NumberBadge? <==> rank !in {1, 2, 3}
    ensures b.NumberBadge? ==> b.rank == rank
  {
    var style := RankStyleOf(rank);
    if style.icon.Some? then IconBadge(style.icon.value) else NumberBadge(rank)
  }

  /** The data a `LeaderboardCard` renders. */
  datatype Card = Card(rank: int, style: RankStyle, initials: string, name: string, totalQuizzes: nat, averageScore: real)

  /** `<LeaderboardCard rank={rank} user={entry} />`. */
  function CardFor(rank: int, e: Entry): (c: Card)
    ensures c.rank == rank && c.style == RankStyleOf(rank) && c.initials == Initials(e.name)
    ensures c.name == e.name && c.totalQuizzes == e.totalQuizzes && c.averageScore == e.averageScore
  {
    Card(rank, RankStyleOf(rank), Initials(e.name), e.name, e.totalQuizzes, e.averageScore)
  }

  /** `users.map((user, index) => <LeaderboardCard rank={index + 1} user={user} />)`: the entry at index i gets rank i + 1. */
  function Cards(entries: seq<Entry>): (cs: seq<Card>)
    ensures |cs| == |entries|
    ensures forall i :: 0 <= i < |cs| ==> cs[i] == CardFor(i + 1, entries[i])
  {
    seq(|entries|, i requires 0 <= i < |entries| => CardFor(i + 1, entries[i]))
  }

  /**
   * On the page's leaderboard ranks are 1, 2, 3, ... with no gaps, a better rank never shows a
   * lower average, and only the first three cards carry an icon.
   */
  lemma RanksFollowAverages(us: seq<User>, i: nat, j: nat)
    requires AllScorable(Fetched(us, DefaultLimit))
    requires i < j < |Cards(GetLeaderboard(us, DefaultLimit))|
    ensures Cards(GetLeaderboard(us, DefaultLimit))[i].rank < Cards(GetLeaderboard(us, DefaultLimit))[j].rank
    ensures Cards(GetLeaderboard(us, DefaultLimit))[j].averageScore <= Cards(GetLeaderboard(us, DefaultLimit))[i].averageScore
    ensures Cards(GetLeaderboard(us, DefaultLimit))[j].style.icon.Some? <==> j < 3
  {
  }
}
