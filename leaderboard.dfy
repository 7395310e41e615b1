/**
 * The read-only queries over the click table: a user's `first()` row under the
 * table's default ordering, the dense-tie rank, the two totals and the top-100
 * list of the leaderboard page.
 */
module Leaderboard {
  import opened Models

  /** How many rows the leaderboard page lists at most. */
  const TopLimit := 100

  /**
   * The row that `user.clicks.first()` yields: under the ordering by descending
   * count it is the user's row with the largest count (the earliest such row
   * when several tie), or nothing when the user owns no row.
   */
  function FirstOf(s: seq<Click>, u: UserId): (r: Option<Click>)
    ensures r.None? <==> forall i :: 0 <= i < |s| ==> s[i].user != u
    ensures r.Some? ==> r.value in s && r.value.user == u
    ensures r.Some? ==> forall i :: 0 <= i < |s| && s[i].user == u ==> s[i].clickCount <= r.value.clickCount
  {
    if s == [] then None
    else
      var rest := FirstOf(s[1..], u);
      if s[0].user != u then rest
      else if rest.Some? && rest.value.clickCount > s[0].clickCount then rest
      else Some(s[0])
  }

  /** When `u` owns exactly the row at `k`, `first()` yields that row. */
  lemma FirstOfOnlyRow(s: seq<Click>, u: UserId, k: nat)
    requires k < |s| && s[k].user == u
    requires forall j :: 0 <= j < |s| && j != k ==> s[j].user != u
    ensures FirstOf(s, u) == Some(s[k])
  {
    var c := FirstOf(s, u).value;
    var j :| 0 <= j < |s| && s[j] == c;
  }

  /** The number of rows whose count is strictly greater than `n` (`filter(click_count__gt=n).count()`). */
  function CountAbove(s: seq<Click>, n: int): (r: nat)
    ensures r <= |s|
  {
    if s == [] then 0
    else (if s[0].clickCount > n then 1 else 0) + CountAbove(s[1..], n)
  }

  /** A row never counts as above itself, so a table holding a row with count `n` has fewer than `|s|` rows above `n`. */
  lemma {:induction false} CountAboveOwnRow(s: seq<Click>, c: Click)
    requires c in s
    ensures CountAbove(s, c.clickCount) < |s|
  {
    if s[0] != c {
      CountAboveOwnRow(s[1..], c);
    }
  }

  /** No row lies above `n` exactly when every count is at most `n`. */
  lemma {:induction false} CountAboveZero(s: seq<Click>, n: int)
    ensures CountAbove(s, n) == 0 <==> forall i :: 0 <= i < |s| ==> s[i].clickCount <= n
  {
    if s != [] {
      CountAboveZero(s[1..], n);
      assert forall i :: 1 <= i < |s| ==> s[i] == s[1..][i - 1];
    }
  }

  /** Raising the threshold past a row's count loses at least that row. */
  lemma {:induction false} CountAboveGap(s: seq<Click>, lo: int, hi: int, c: Click)
    requires lo < c.clickCount <= hi
    requires c in s
    ensures CountAbove(s, hi) + 1 <= CountAbove(s, lo)
  {
    if s[0] == c {
      CountAboveAntitone(s[1..], lo, hi);
    } else {
      CountAboveGap(s[1..], lo, hi, c);
    }
  }

  /** A higher threshold never counts more rows. */
  lemma {:induction false} CountAboveAntitone(s: seq<Click>, lo: int, hi: int)
    requires lo <= hi
    ensures CountAbove(s, hi) <= CountAbove(s, lo)
  {
    if s != [] {
      CountAboveAntitone(s[1..], lo, hi);
    }
  }

  /**
   * The personal rank of the leaderboard page: one more than the number of rows
   * whose count beats the user's `first()` row; nothing when the user owns no row.
   */
  function UserRank(s: seq<Click>, u: UserId): (r: Option<nat>)
    ensures r.Some? <==> exists i :: 0 <= i < |s| && s[i].user == u
    ensures r.Some? ==> 1 <= r.value <= |s|
  {
    match FirstOf(s, u)
    case None => None
    case Some(c) =>
      CountAboveOwnRow(s, c);
      Some(CountAbove(s, c.clickCount) + 1)
  }

  /** Dense ties: two users whose best rows hold the same count share a rank. */
  lemma RankDenseTies(s: seq<Click>, a: UserId, b: UserId)
    requires FirstOf(s, a).Some? && FirstOf(s, b).Some?
    requires FirstOf(s, a).value.clickCount == FirstOf(s, b).value.clickCount
    ensures UserRank(s, a) == UserRank(s, b)
  {
  }

  /** A user with strictly more clicks ranks strictly better. */
  lemma RankStrictlyBetter(s: seq<Click>, a: UserId, b: UserId)
    requires FirstOf(s, a).Some? && FirstOf(s, b).Some?
    requires FirstOf(s, a).value.clickCount > FirstOf(s, b).value.clickCount
    ensures UserRank(s, a).value < UserRank(s, b).value
  {
    var ca, cb := FirstOf(s, a).value, FirstOf(s, b).value;
    CountAboveGap(s, cb.clickCount, ca.clickCount, ca);
  }

  /** Rank 1 is held exactly by the users no row beats. */
  lemma RankOneIffUnbeaten(s: seq<Click>, u: UserId)
    requires FirstOf(s, u).Some?
    ensures UserRank(s, u) == Some(1) <==>
      forall i :: 0 <= i < |s| ==> s[i].clickCount <= FirstOf(s, u).value.clickCount
  {
    CountAboveZero(s, FirstOf(s, u).value.clickCount);
  }

  /** `filter(click_count__gt=0).count()`: the rows that have clicked at least once. */
  function TotalPlayers(s: seq<Click>): (r: nat)
    ensures r <= |s|
    ensures r == 0 <==> forall i :: 0 <= i < |s| ==> s[i].clickCount <= 0
  {
    CountAboveZero(s, 0);
    CountAbove(s, 0)
  }

  /** The arithmetic sum of every row's count. */
  function SumCounts(s: seq<Click>): int
  {
    if s == [] then 0 else s[0].clickCount + SumCounts(s[1..])
  }

  /** SQL `SUM(click_count)`: NULL over an empty table. */
  function SumAggregate(s: seq<Click>): Option<int>
  {
    if s == [] then None else Some(SumCounts(s))
  }

  /** `aggregate(Sum) or 0`: the sum of all counts, and 0 when there are no rows. */
  function TotalClicks(s: seq<Click>): (r: int)
    ensures r == SumCounts(s)
    ensures s == [] ==> r == 0
  {
    match SumAggregate(s)
    case None => 0
    case Some(total) => if total == 0 then 0 else total
  }

  /** With non-negative counts, every player contributes at least one click, and there are clicks exactly when there are players. */
  lemma {:induction false} PlayersBoundClicks(s: seq<Click>)
    requires forall i :: 0 <= i < |s| ==> s[i].clickCount >= 0
    ensures TotalPlayers(s) <= TotalClicks(s)
    ensures TotalClicks(s) == 0 <==> TotalPlayers(s) == 0
  {
    if s != [] {
      assert forall i :: 0 <= i < |s[1..]| ==> s[1..][i] == s[i + 1];
      PlayersBoundClicks(s[1..]);
    }
  }

  /** Replacing one row changes the sum by the difference of the two counts. */
  lemma {:induction false} SumCountsUpdate(s: seq<Click>, k: nat, c: Click)
    requires k < |s|
    ensures SumCounts(s[k := c]) == SumCounts(s) - s[k].clickCount + c.clickCount
  {
    if k > 0 {
      assert s[k := c][1..] == s[1..][k - 1 := c];
      SumCountsUpdate(s[1..], k - 1, c);
    }
  }

  /** Appending a row adds its count to the sum. */
  lemma {:induction false} SumCountsAppend(s: seq<Click>, c: Click)
    ensures SumCounts(s + [c]) == SumCounts(s) + c.clickCount
  {
    if s != [] {
      assert (s + [c])[1..] == s[1..] + [c];
      SumCountsAppend(s[1..], c);
    }
  }

  /** Replacing one row changes the rows above `n` by at most that row. */
  lemma {:induction false} CountAboveUpdate(s: seq<Click>, k: nat, c: Click, n: int)
    requires k < |s|
    ensures CountAbove(s[k := c], n) ==
      CountAbove(s, n) - (if s[k].clickCount > n then 1 else 0) + (if c.clickCount > n then 1 else 0)
  {
    if k > 0 {
      assert s[k := c][1..] == s[1..][k - 1 := c];
      CountAboveUpdate(s[1..], k - 1, c, n);
    }
  }

  /** Appending a row counts it above `n` when its count exceeds `n`. */
  lemma {:induction false} CountAboveAppend(s: seq<Click>, c: Click, n: int)
    ensures CountAbove(s + [c], n) == CountAbove(s, n) + (if c.clickCount > n then 1 else 0)
  {
    if s != [] {
      assert (s + [c])[1..] == s[1..] + [c];
      CountAboveAppend(s[1..], c, n);
    }
  }

  /**
   * Places `c` in front of the first row it is not below, so rows of equal count
   * keep their relative order.
   */
  function InsertByCount(c: Click, s: seq<Click>): (r: seq<Click>)
    requires SortedByCount(s)
    ensures SortedByCount(r)
    ensures multiset(r) == multiset(s) + multiset{c}
    ensures |r| == |s| + 1
    ensures r[0] == c || (s != [] && r[0] == s[0])
  {
    if s == [] || c.clickCount >= s[0].clickCount then
      SortedCons(c, s);
      [c] + s
    else
      var rest := InsertByCount(c, s[1..]);
      InsertBehindHead(c, s, rest);
      [s[0]] + rest
  }

  /** The step of `InsertByCount` that keeps the head of `s` in front of `c` inserted into the rest. */
  lemma InsertBehindHead(c: Click, s: seq<Click>, rest: seq<Click>)
    requires SortedByCount(s) && s != [] && c.clickCount < s[0].clickCount
    requires SortedByCount(rest) && multiset(rest) == multiset(s[1..]) + multiset{c}
    requires |rest| == |s| && (rest[0] == c || (|s| > 1 && rest[0] == s[1]))
    ensures SortedByCount([s[0]] + rest)
    ensures multiset([s[0]] + rest) == multiset(s) + multiset{c}
  {
    assert s[0].clickCount >= rest[0].clickCount;
    SortedCons(s[0], rest);
    assert s == [s[0]] + s[1..];
  }

  /** A row not below the head of a sorted sequence may be put in front of it. */
  lemma SortedCons(x: Click, t: seq<Click>)
    requires SortedByCount(t)
    requires t != [] ==> x.clickCount >= t[0].clickCount
    ensures SortedByCount([x] + t)
  {
    forall i, j | 0 <= i < j < |[x] + t|
      ensures ([x] + t)[i].clickCount >= ([x] + t)[j].clickCount
    {
      if i == 0 && j > 1 {
        assert t[0].clickCount >= t[j - 1].clickCount;
      }
    }
  }

  /** The click table under `order_by('-click_count')`; ties keep table order. */
  function SortByCount(s: seq<Click>): (r: seq<Click>)
    ensures SortedByCount(r)
    ensures multiset(r) == multiset(s)
    ensures |r| == |s|
  {
    if s == [] then []
    else
      assert s == [s[0]] + s[1..];
      InsertByCount(s[0], SortByCount(s[1..]))
  }

  function Min(a: int, b: int): int
  {
    if a <= b then a else b
  }

  /** In a sorted sequence, no row after position `k` beats the row just before it. */
  lemma SortedTail(t: seq<Click>, k: nat)
    requires SortedByCount(t)
    requires 0 < k <= |t|
    ensures forall x :: x in multiset(t[k..]) ==> x.clickCount <= t[k - 1].clickCount
  {
    forall x | x in multiset(t[k..])
      ensures x.clickCount <= t[k - 1].clickCount
    {
      assert x in t[k..];
      var j :| 0 <= j < |t[k..]| && t[k..][j] == x;
      assert t[k + j] == x;
    }
  }

  /** No row of `s` that is missing from `r` has more than `bound` clicks. */
  predicate LeftOutAtMost(s: seq<Click>, r: seq<Click>, bound: int)
  {
    forall x :: x in multiset(s) - multiset(r) ==> x.clickCount <= bound
  }

  /** The first `k` rows of a sorted permutation of `s` are sorted, drawn from `s`, and beat every row of `s` left out. */
  lemma {:induction false} PrefixOfSorted(t: seq<Click>, s: seq<Click>, k: nat)
    requires SortedByCount(t) && multiset(t) == multiset(s) && k <= |t|
    ensures |t[..k]| == k
    ensures SortedByCount(t[..k])
    ensures multiset(t[..k]) <= multiset(s)
    ensures |t[..k]| > 0 ==> LeftOutAtMost(s, t[..k], t[..k][|t[..k]| - 1].clickCount)
  {
    PrefixMultiset(t, s, k);
    PrefixSorted(t, k);
    if k > 0 {
      SortedTail(t, k);
      assert t[..k][|t[..k]| - 1] == t[k - 1];
    }
  }

  /** Cutting a permutation of `s` at `k` splits `s` into the rows taken and the rows left out. */
  lemma PrefixMultiset(t: seq<Click>, s: seq<Click>, k: nat)
    requires multiset(t) == multiset(s) && k <= |t|
    ensures multiset(t[..k]) <= multiset(s)
    ensures multiset(s) - multiset(t[..k]) == multiset(t[k..])
  {
    assert t == t[..k] + t[k..];
  }

  /** A prefix of a sorted sequence is sorted. */
  lemma PrefixSorted(t: seq<Click>, k: nat)
    requires SortedByCount(t) && k <= |t|
    ensures SortedByCount(t[..k])
  {
    assert forall i :: 0 <= i < k ==> t[..k][i] == t[i];
  }

  /**
   * The first `k` rows of `t`, a sorted permutation of `s`. Its contract is that
   * of `PrefixOfSorted` for the slice; proving it in the lemma and returning the
   * slice here keeps the slice and multiset reasoning out of `TopPlayers`, whose
   * proof otherwise grows very costly on some solver seeds.
   */
  function TakeTop(t: seq<Click>, s: seq<Click>, k: nat): (r: seq<Click>)
    requires SortedByCount(t) && multiset(t) == multiset(s) && k <= |t|
    ensures |r| == k
    ensures SortedByCount(r)
    ensures multiset(r) <= multiset(s)
    ensures |r| > 0 ==> LeftOutAtMost(s, r, r[|r| - 1].clickCount)
  {
    PrefixOfSorted(t, s, k);
    t[..k]
  }

  /**
   * `order_by('-click_count')[:100]`: at most 100 rows, in non-increasing order,
   * drawn from the table, and no row left out beats the last row listed.
   */
  function TopPlayers(s: seq<Click>): (r: seq<Click>)
    ensures |r| == Min(TopLimit, |s|)
    ensures SortedByCount(r)
    ensures multiset(r) <= multiset(s)
    ensures |r| > 0 ==> LeftOutAtMost(s, r, r[|r| - 1].clickCount)
  {
    TakeTop(SortByCount(s), s, Min(TopLimit, |s|))
  }

  /** What the leaderboard page shows. */
  datatype Page = Page(
    topPlayers: seq<Click>,
    userRank: Option<nat>,
    userClickRecord: Option<Click>,
    totalPlayers: nat,
    totalClicks: int)

  /**
   * The leaderboard page for a signed-in user (`Some`) or an anonymous visitor
   * (`None`). The personal row and rank appear exactly for a signed-in user who
   * owns a row: the row is the user's best, and the rank is one more than the
   * number of rows with more clicks. The top list and both totals are the same
   * for every visitor.
   */
  function LeaderboardPage(s: seq<Click>, viewer: Option<UserId>): (p: Page)
    ensures viewer.None? ==> p.userRank.None? && p.userClickRecord.None?
    ensures p.userRank.Some? <==> viewer.Some? && exists i :: 0 <= i < |s| && s[i].user == viewer.value
    ensures p.userRank.Some? <==> p.userClickRecord.Some?
    ensures p.userRank.Some? ==> 1 <= p.userRank.value <= |s|
    ensures p.userClickRecord.Some? ==> p.userClickRecord.value in s && p.userClickRecord.value.user == viewer.value
    ensures p.userClickRecord.Some? ==>
      forall i :: 0 <= i < |s| && s[i].user == viewer.value ==> s[i].clickCount <= p.userClickRecord.value.clickCount
    ensures p.userRank.Some? ==> p.userRank.value == 1 + CountAbove(s, p.userClickRecord.value.clickCount)
    ensures |p.topPlayers| <= TopLimit && |p.topPlayers| == Min(TopLimit, |s|)
    ensures SortedByCount(p.topPlayers) && multiset(p.topPlayers) <= multiset(s)
    ensures |p.topPlayers| > 0 ==> LeftOutAtMost(s, p.topPlayers, p.topPlayers[|p.topPlayers| - 1].clickCount)
    ensures p.totalPlayers == CountAbove(s, 0) && p.totalPlayers <= |s|
    ensures p.totalPlayers == 0 <==> forall i :: 0 <= i < |s| ==> s[i].clickCount <= 0
    ensures p.totalClicks == SumCounts(s)
  {
    var record := if viewer.Some? then FirstOf(s, viewer.value) else None;
    var rank := if viewer.Some? then UserRank(s, viewer.value) else None;
    Page(TopPlayers(s), rank, record, TotalPlayers(s), TotalClicks(s))
  }
}
