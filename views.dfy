/**
 * The request handlers of the button game over an in-memory copy of its three
 * tables: registered users, the profile table (one row per user) and the click
 * table (rows keyed by a non-unique user column). Each handler reads and writes
 * the tables in place, as the handlers do through the ORM.
 */
module Views {
  import opened Models
  import opened Leaderboard
  import opened Clicks
  import Payments

  /** The outcome of `Click.objects.get(user=u)` inside `get_or_create`. */
  datatype ClickLookup = DoesNotExist | Found(index: nat) | MultipleObjectsReturned

  class Store {
    var users: set<UserId>
    var profiles: map<UserId, UserProfile>
    var clicks: seq<Click>

    /**
     * Every profile and click row belongs to a registered user, and no count is
     * negative, so the leaderboard never shows more players than clicks.
     */
    ghost predicate Valid()
      reads this
    {
      && profiles.Keys <= users
      && forall i :: 0 <= i < |clicks| ==> clicks[i].user in users && clicks[i].clickCount >= 0
    }

    constructor ()
      ensures Valid()
      ensures users == {} && profiles == map[] && clicks == []
    {
      users, profiles, clicks := {}, map[], [];
    }

    /** A successful sign-up: the new user gets a default profile and a click row at 0. */
    method Signup(u: UserId)
      requires Valid() && u !in users
      modifies this
      ensures Valid()
      ensures users == old(users) + {u}
      ensures profiles == old(profiles)[u := DefaultProfile]
      ensures clicks == old(clicks) + [NewClick(u)]
    {
      users := users + {u};
      profiles := profiles[u := DefaultProfile];
      clicks := clicks + [NewClick(u)];
    }

    /** The profile of `u`, created with the defaults when it is missing. */
    method EnsureProfile(u: UserId) returns (profile: UserProfile)
      requires Valid() && u in users
      modifies this
      ensures Valid() && users == old(users) && clicks == old(clicks)
      ensures profiles == Payments.GetOrCreateProfile(old(profiles), u)
      ensures profile == profiles[u]
    {
      if u !in profiles {
        profiles := profiles[u := DefaultProfile];
      }
      profile := profiles[u];
    }

    /** Sets the premium flag and the customer id on the profile of `u`, creating it first when missing. */
    method SetPremium(u: UserId, customer: Option<string>)
      requires Valid() && u in users
      modifies this
      ensures Valid() && users == old(users) && clicks == old(clicks)
      ensures profiles == Payments.MarkPremium(old(profiles), u, customer)
    {
      var profile := EnsureProfile(u);
      profile := profile.(isPremium := true, stripeCustomerId := customer);
      profiles := profiles[u := profile];
    }

    /** The profile page: the profile is created when missing; the click row is only read. */
    method ProfileView(u: UserId) returns (profile: UserProfile, clickRecord: Option<Click>)
      requires Valid() && u in users
      modifies this
      ensures Valid() && users == old(users) && clicks == old(clicks)
      ensures profiles == Payments.GetOrCreateProfile(old(profiles), u) && profile == profiles[u]
      ensures clickRecord.None? <==> forall i :: 0 <= i < |clicks| ==> clicks[i].user != u
      ensures clickRecord == FirstOf(clicks, u)
    {
      profile := EnsureProfile(u);
      clickRecord := FirstOf(clicks, u);
    }

    /** The game page: both the profile and a click row are created when missing. */
    method GameView(u: UserId) returns (profile: UserProfile, clickRecord: Click)
      requires Valid() && u in users
      modifies this
      ensures Valid() && users == old(users)
      ensures profiles == Payments.GetOrCreateProfile(old(profiles), u) && profile == profiles[u]
      ensures FirstOf(old(clicks), u).Some? ==> clicks == old(clicks) && clickRecord == FirstOf(old(clicks), u).value
      ensures FirstOf(old(clicks), u).None? ==> clicks == old(clicks) + [NewClick(u)] && clickRecord == NewClick(u)
      ensures FirstOf(clicks, u) == Some(clickRecord)
    {
      profile := EnsureProfile(u);
      var first := FirstOf(clicks, u);
      if first.Some? {
        clickRecord := first.value;
      } else {
        clickRecord := NewClick(u);
        clicks := clicks + [clickRecord];
        FirstOfOnlyRow(clicks, u, |clicks| - 1);
      }
    }

    /** Scans the click table for the rows of `u`, as `Click.objects.get(user=u)` does. */
    method LookupClicks(u: UserId) returns (m: ClickLookup)
      ensures m.DoesNotExist? <==> forall i :: 0 <= i < |clicks| ==> clicks[i].user != u
      ensures m.MultipleObjectsReturned? <==> !OwnsAtMostOne(clicks, u)
      ensures m.Found? ==> m.index < |clicks| && clicks[m.index].user == u
      ensures m.Found? ==> forall j :: 0 <= j < |clicks| && j != m.index ==> clicks[j].user != u
    {
      var found: Option<nat> := None;
      var i := 0;
      while i < |clicks|
        invariant 0 <= i <= |clicks|
        invariant found.None? ==> forall j :: 0 <= j < i ==> clicks[j].user != u
        invariant found.Some? ==> found.value < i && clicks[found.value].user == u
        invariant found.Some? ==> forall j :: 0 <= j < i && j != found.value ==> clicks[j].user != u
      {
        if clicks[i].user == u {
          if found.Some? {
            assert clicks[found.value].user == u && found.value < i;
            return MultipleObjectsReturned;
          }
          found := Some(i);
        }
        i := i + 1;
      }
      m := if found.None? then DoesNotExist else Found(found.value);
    }

    /**
     * The click endpoint: get or create the user's row at 0, add exactly one and
     * save; several rows for the user make the lookup raise, which is answered
     * with status 400. The answer and the new click table are `Increment`'s.
     */
    method ButtonClick(u: UserId) returns (resp: ClickResponse)
      requires Valid() && u in users
      modifies this
      ensures Valid() && users == old(users) && profiles == old(profiles)
      ensures ClickResult(resp, clicks) == Increment(old(clicks), u)
    {
      var lookup := LookupClicks(u);
      match lookup {
        case MultipleObjectsReturned =>
          resp := ClickFailure(400);
        case DoesNotExist =>
          var record := NewClick(u);
          record := record.(clickCount := record.clickCount + 1);
          clicks := clicks + [record];
          resp := ClickSuccess(record.clickCount);
        case Found(k) =>
          IncrementOnlyRow(clicks, u, k);
          var record := clicks[k];
          record := record.(clickCount := record.clickCount + 1);
          clicks := clicks[k := record];
          resp := ClickSuccess(record.clickCount);
      }
    }

    /** The checkout endpoint; `outcome` is what Stripe answers if it is called. */
    method CreateCheckoutSession(u: UserId, email: string, price: int, outcome: Payments.CreateOutcome)
      returns (response: Payments.CheckoutResponse, remoteCall: Option<Payments.CheckoutRequest>)
      requires Valid() && u in users
      modifies this
      ensures Valid() && users == old(users) && clicks == old(clicks)
      ensures Payments.CheckoutResult(response, remoteCall, profiles) ==
        Payments.CreateCheckoutSession(old(profiles), u, email, price, outcome)
    {
      var profile := EnsureProfile(u);
      if profile.isPremium {
        return Payments.AlreadyPremium, None;
      }
      remoteCall := Some(Payments.CheckoutRequest(email, "usd", price, 1, u));
      match outcome {
        case Created(url) => response := Payments.RedirectToCheckout(url);
        case CreateFailed => response := Payments.CheckoutError;
      }
    }

    /** The success redirect for signed-in user `u`; `outcome` is what Stripe answers if it is called. */
    method PaymentSuccess(u: UserId, sessionId: Option<string>, outcome: Payments.RetrieveOutcome)
      returns (response: Payments.SuccessResponse)
      requires Valid() && u in users
      modifies this
      ensures Valid() && users == old(users) && clicks == old(clicks)
      ensures Payments.SuccessResult(response, profiles) == Payments.PaymentSuccess(old(profiles), u, sessionId, outcome)
    {
      response := Payments.RedirectToProfile;
      if Payments.HasSessionId(sessionId) {
        if outcome.Retrieved? && outcome.session.paymentStatus == Payments.Paid {
          SetPremium(u, outcome.session.customer);
          response := Payments.RenderSuccess;
        }
      }
    }

    /** The webhook endpoint; `v` is what the signature check makes of the request. */
    method StripeWebhook(v: Payments.Verification) returns (status: int)
      requires Valid()
      modifies this
      ensures Valid() && users == old(users) && clicks == old(clicks)
      ensures Payments.WebhookResult(status, profiles) == Payments.StripeWebhook(users, old(profiles), v)
    {
      match v {
        case InvalidPayload =>
          return 400;
        case BadSignature =>
          return 400;
        case Verified(event) =>
          if event.eventType == Payments.CheckoutCompleted {
            var session := event.session;
            if session.metadataUserId.Some? && session.metadataUserId.value in users {
              SetPremium(session.metadataUserId.value, session.customer);
            }
          }
          status := 200;
      }
    }
  }

  /**
   * In a valid store, which every handler keeps valid, the leaderboard never
   * shows more players than clicks, and it shows clicks exactly when it shows
   * players.
   */
  lemma ValidStoreTotals(store: Store)
    requires store.Valid()
    ensures TotalPlayers(store.clicks) <= TotalClicks(store.clicks)
    ensures TotalClicks(store.clicks) == 0 <==> TotalPlayers(store.clicks) == 0
  {
    PlayersBoundClicks(store.clicks);
  }

  /** A click by a user who owns exactly one row, the row at `k`: that row goes up by one and the answer is its new count. */
  method ClickOnlyRow(store: Store, u: UserId, k: nat) returns (resp: ClickResponse)
    requires store.Valid() && u in store.users
    requires k < |store.clicks| && store.clicks[k].user == u
    requires forall j :: 0 <= j < |store.clicks| && j != k ==> store.clicks[j].user != u
    modifies store
    ensures store.Valid() && store.users == old(store.users) && store.profiles == old(store.profiles)
    ensures store.clicks == old(store.clicks)[k := Click(u, old(store.clicks)[k].clickCount + 1)]
    ensures resp == ClickSuccess(old(store.clicks)[k].clickCount + 1)
  {
    IncrementOnlyRow(store.clicks, u, k);
    resp := store.ButtonClick(u);
  }

  /** The first player of the two-player table holds rank 1. */
  lemma TwoPlayerRank()
    ensures UserRank([Click(1, 3), Click(2, 1)], 1) == Some(1)
  {
    var s := [Click(1, 3), Click(2, 1)];
    assert s[1..] == [Click(2, 1)] && s[1..][1..] == [];
    assert FirstOf(s[1..], 1) == None;
    assert FirstOf(s, 1) == Some(Click(1, 3));
    assert CountAbove(s[1..], 3) == 0;
  }

  /** The two-player table counts two players and four clicks. */
  lemma TwoPlayerTotals()
    ensures TotalPlayers([Click(1, 3), Click(2, 1)]) == 2
    ensures TotalClicks([Click(1, 3), Click(2, 1)]) == 4
  {
    var s := [Click(1, 3), Click(2, 1)];
    assert s[1..] == [Click(2, 1)] && s[1..][1..] == [];
    assert CountAbove(s[1..], 0) == 1;
    assert SumCounts(s[1..]) == 1;
  }

  /** The two-player table is already in leaderboard order. */
  lemma TwoPlayerTop()
    ensures TopPlayers([Click(1, 3), Click(2, 1)]) == [Click(1, 3), Click(2, 1)]
  {
    var s := [Click(1, 3), Click(2, 1)];
    assert s[1..] == [Click(2, 1)] && s[1..][1..] == [];
    assert SortByCount(s[1..]) == [Click(2, 1)];
    assert SortByCount(s) == s;
  }

  /** The leaderboard of the sign-up-click-and-pay run, as the first player sees it. */
  lemma TwoPlayerPage()
    ensures var p := LeaderboardPage([Click(1, 3), Click(2, 1)], Some(1));
      p.userRank == Some(1) && p.totalPlayers == 2 && p.totalClicks == 4 &&
      p.topPlayers == [Click(1, 3), Click(2, 1)]
  {
    TwoPlayerRank();
    TwoPlayerTotals();
    TwoPlayerTop();
  }

  /**
   * A sign-up, three clicks and a completed checkout delivered by the webhook,
   * beside a second player with one click: the first player ends with three
   * clicks, premium, first on the leaderboard ahead of the second.
   */
  method SignupClickAndPay() returns (count: int, premium: bool, page: Page)
    ensures count == 3 && premium
    ensures page.userRank == Some(1) && page.totalPlayers == 2 && page.totalClicks == 4
    ensures page.topPlayers == [Click(1, 3), Click(2, 1)]
  {
    var store := new Store();
    store.Signup(1);
    store.Signup(2);
    assert store.clicks == [Click(1, 0), Click(2, 0)];
    var r := ClickOnlyRow(store, 1, 0);
    r := ClickOnlyRow(store, 1, 0);
    r := ClickOnlyRow(store, 1, 0);
    count := r.clickCount;
    r := ClickOnlyRow(store, 2, 1);
    assert store.clicks == [Click(1, 3), Click(2, 1)];
    var session := Payments.CheckoutSession(Payments.Paid, Some("cus_1"), Some(1));
    assert 1 in store.users;
    Payments.WebhookUpgradesMetadataUser(store.users, store.profiles, session, 1);
    var status := store.StripeWebhook(Payments.Verified(Payments.Event(Payments.CheckoutCompleted, session)));
    assert store.profiles[1] == UserProfile(true, Some("cus_1"));
    premium := store.profiles[1].isPremium;
    TwoPlayerPage();
    page := LeaderboardPage(store.clicks, Some(1));
  }
}
