/**
 * What one press of the button does to the click table: `get_or_create` the
 * user's row at 0, add exactly one, save, and answer the new count; or answer
 * status 400 when the lookup raises because the user owns several rows.
 */
module Clicks {
  import opened Models
  import opened Leaderboard

  /** The JSON answer of the click endpoint: the new count, or a failure with its HTTP status. */
  datatype ClickResponse = ClickSuccess(clickCount: int) | ClickFailure(status: int)

  /** The answer together with the click table after the request. */
  datatype ClickResult = ClickResult(response: ClickResponse, clicks: seq<Click>)

  /** The position of the first row of `u`. */
  function RowIndex(s: seq<Click>, u: UserId): (k: nat)
    requires exists i :: 0 <= i < |s| && s[i].user == u
    ensures k < |s| && s[k].user == u
    ensures forall j :: 0 <= j < k ==> s[j].user != u
  {
    if s[0].user == u then 0
    else
      assert exists i :: 0 <= i < |s[1..]| && s[1..][i].user == u by {
        var i :| 0 <= i < |s| && s[i].user == u;
        assert s[1..][i - 1] == s[i];
      }
      1 + RowIndex(s[1..], u)
  }

  /** Creating a row at 0 for a user who owns none gives that user exactly one row and leaves both totals as they were. */
  lemma CreateRow(s: seq<Click>, u: UserId)
    requires forall i :: 0 <= i < |s| ==> s[i].user != u
    ensures forall j :: 0 <= j < |s| ==> (s + [NewClick(u)])[j].user != u
    ensures TotalClicks(s + [NewClick(u)]) == TotalClicks(s)
    ensures TotalPlayers(s + [NewClick(u)]) == TotalPlayers(s)
  {
    SumCountsAppend(s, NewClick(u));
    CountAboveAppend(s, NewClick(u), 0);
  }

  /**
   * Adding one click to a user's only row: `first()` is the raised row, the
   * click total grows by one, and the player total grows exactly when the row
   * was at 0.
   */
  lemma RaiseOnlyRow(s: seq<Click>, u: UserId, k: nat)
    requires k < |s| && s[k].user == u
    requires forall j :: 0 <= j < |s| && j != k ==> s[j].user != u
    ensures FirstOf(s[k := Click(u, s[k].clickCount + 1)], u) == Some(Click(u, s[k].clickCount + 1))
    ensures TotalClicks(s[k := Click(u, s[k].clickCount + 1)]) == TotalClicks(s) + 1
    ensures TotalPlayers(s[k := Click(u, s[k].clickCount + 1)]) ==
      TotalPlayers(s) + (if s[k].clickCount == 0 then 1 else 0)
  {
    var t := s[k := Click(u, s[k].clickCount + 1)];
    FirstOfOnlyRow(t, u, k);
    SumCountsUpdate(s, k, t[k]);
    CountAboveUpdate(s, k, t[k], 0);
  }

  /**
   * `button_click` on click table `s` for user `u`. With several rows the
   * request fails with 400 and nothing changes. Otherwise the answer is one
   * more than the stored count (0 for a row created now), the stored count then
   * equals the answer, only the user's row changes, no count decreases, the
   * click total grows by one, and the player total grows exactly on the
   * user's first click.
   */
  function Increment(s: seq<Click>, u: UserId): (r: ClickResult)
    ensures r.response.ClickFailure? <==> !OwnsAtMostOne(s, u)
    ensures r.response.ClickFailure? ==> r.response.status == 400 && r.clicks == s
    ensures r.response.ClickSuccess? ==>
      r.response.clickCount == 1 + (if FirstOf(s, u).Some? then FirstOf(s, u).value.clickCount else 0)
    ensures r.response.ClickSuccess? ==> FirstOf(r.clicks, u) == Some(Click(u, r.response.clickCount))
    ensures r.response.ClickSuccess? && FirstOf(s, u).None? ==> r.clicks == s + [Click(u, 1)]
    ensures r.response.ClickSuccess? && FirstOf(s, u).Some? ==>
      |r.clicks| == |s| &&
      forall i :: 0 <= i < |s| ==>
        r.clicks[i] == if s[i].user == u then Click(u, s[i].clickCount + 1) else s[i]
    ensures |s| <= |r.clicks| && forall i :: 0 <= i < |s| ==> s[i].clickCount <= r.clicks[i].clickCount
    ensures r.response.ClickSuccess? ==> TotalClicks(r.clicks) == TotalClicks(s) + 1
    ensures r.response.ClickSuccess? ==>
      TotalPlayers(r.clicks) == TotalPlayers(s) + (if r.response.clickCount == 1 then 1 else 0)
  {
    if !OwnsAtMostOne(s, u) then
      ClickResult(ClickFailure(400), s)
    else if FirstOf(s, u).None? then
      var t := s + [Click(u, 1)];
      assert forall j :: 0 <= j < |s| ==> t[j] == s[j];
      FirstOfOnlyRow(t, u, |s|);
      SumCountsAppend(s, Click(u, 1));
      CountAboveAppend(s, Click(u, 1), 0);
      ClickResult(ClickSuccess(1), t)
    else
      var k := RowIndex(s, u);
      FirstOfOnlyRow(s, u, k);
      RaiseOnlyRow(s, u, k);
      ClickResult(ClickSuccess(s[k].clickCount + 1), s[k := Click(u, s[k].clickCount + 1)])
  }

  /** The click table of a user who owns exactly the row at `k` gains one click at `k` and nowhere else. */
  lemma IncrementOnlyRow(s: seq<Click>, u: UserId, k: nat)
    requires k < |s| && s[k].user == u
    requires forall j :: 0 <= j < |s| && j != k ==> s[j].user != u
    ensures Increment(s, u) == ClickResult(ClickSuccess(s[k].clickCount + 1), s[k := Click(u, s[k].clickCount + 1)])
  {
    FirstOfOnlyRow(s, u, k);
    assert Increment(s, u).clicks == s[k := Click(u, s[k].clickCount + 1)];
  }
}
