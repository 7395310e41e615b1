/**
 * The two tables of the button game: a one-to-one profile per user holding the
 * premium flag, and a click-counter table whose user column is a plain foreign
 * key (so one user may own several rows).
 */
module Models {

  datatype Option<T> = None | Some(value: T)

  /** Primary key of a registered user of the authentication framework. */
  type UserId = nat

  /** A profile row. The Stripe customer id may be null or blank until a payment is reconciled. */
  datatype UserProfile = UserProfile(isPremium: bool, stripeCustomerId: Option<string>)

  /** The field defaults of a freshly created profile row. */
  const DefaultProfile := UserProfile(false, None)

  /** A click-counter row; the `last_clicked` timestamp is not modelled. */
  datatype Click = Click(user: UserId, clickCount: int)

  /** The field defaults of a freshly created click row for user `u`. */
  function NewClick(u: UserId): Click
  {
    Click(u, 0)
  }

  /** The click table's default ordering: non-increasing click count. */
  predicate SortedByCount(s: seq<Click>)
  {
    forall i, j :: 0 <= i < j < |s| ==> s[i].clickCount >= s[j].clickCount
  }

  /** Ordering every pair of rows and ordering every neighbouring pair are the same. */
  lemma {:induction false} SortedIffAdjacent(s: seq<Click>)
    ensures SortedByCount(s) <==> forall i :: 0 <= i < |s| - 1 ==> s[i].clickCount >= s[i + 1].clickCount
  {
    if s != [] && forall i :: 0 <= i < |s| - 1 ==> s[i].clickCount >= s[i + 1].clickCount {
      var t := s[1..];
      assert forall i :: 0 <= i < |t| - 1 ==> t[i].clickCount >= t[i + 1].clickCount by {
        assert forall i :: 0 <= i < |t| ==> t[i] == s[i + 1];
      }
      SortedIffAdjacent(t);
      forall i, j | 0 <= i < j < |s|
        ensures s[i].clickCount >= s[j].clickCount
      {
        if i > 0 {
          assert s[i] == t[i - 1] && s[j] == t[j - 1];
        } else if j > 1 {
          assert s[1] == t[0] && s[j] == t[j - 1];
        }
      }
    }
  }

  /** The number of rows of `u`: what `Click.objects.filter(user=u).count()` answers. */
  function RowCount(s: seq<Click>, u: UserId): nat
  {
    if s == [] then 0 else (if s[0].user == u then 1 else 0) + RowCount(s[1..], u)
  }

  /** A user owns no row exactly when the count of the user's rows is 0. */
  lemma {:induction false} RowCountZero(s: seq<Click>, u: UserId)
    ensures RowCount(s, u) == 0 <==> forall i :: 0 <= i < |s| ==> s[i].user != u
  {
    if s != [] {
      RowCountZero(s[1..], u);
      assert forall i :: 0 < i < |s| ==> s[i] == s[1..][i - 1];
    }
  }

  /** No two rows of `u` exactly when `u` owns at most one row by count. */
  lemma {:induction false} AtMostOneRowCount(s: seq<Click>, u: UserId)
    ensures OwnsAtMostOne(s, u) <==> RowCount(s, u) <= 1
  {
    if s != [] {
      var t := s[1..];
      assert forall i :: 0 < i < |s| ==> s[i] == t[i - 1];
      AtMostOneRowCount(t, u);
      RowCountZero(t, u);
    }
  }

  /**
   * True when no two rows of `s` belong to `u`, the case in which
   * `Click.objects.get(user=u)` does not raise `MultipleObjectsReturned`.
   */
  predicate OwnsAtMostOne(s: seq<Click>, u: UserId)
  {
    forall i, j :: 0 <= i < j < |s| && s[i].user == u ==> s[j].user != u
  }
}
