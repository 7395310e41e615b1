# Button game: clicks, leaderboard and premium upgrades in Dafny

The button game is a small Django web application. Signed-in users click a
button that adds one to their click counter. A public leaderboard ranks the
counters. A one-time Stripe payment unlocks a "premium" flag on the user's
profile. The payment is confirmed on two paths: the browser's success redirect
and Stripe's signed webhook.

This project models the logic of `game/views.py` over the two tables declared
in `game/models.py`:

- `Models` (`models.dfy`): the record shapes and their defaults. A profile row
  is `UserProfile(isPremium, stripeCustomerId)`, created as
  `DefaultProfile = UserProfile(false, None)`. A click row is
  `Click(user, clickCount)`, created at 0. The profile is one-to-one with its
  user, so the profile table is a `map<UserId, UserProfile>`. The click table's
  user column is a plain foreign key, so the click table is a `seq<Click>` in
  which one user may own several rows. The table's default ordering is
  descending `click_count` (`SortedByCount`).
- `Leaderboard` (`leaderboard.dfy`): the read-only queries, as functions. They
  cover `user.clicks.first()` (`FirstOf`) and the dense-tie rank
  `1 + |{rows with a larger count}|` (`UserRank`). They also cover
  `total_players` (rows with a positive count), `total_clicks` (SQL `SUM` or
  0), and the top-100 list under `order_by('-click_count')`.
- `Clicks` (`clicks.dfy`): what one press of the button does to the click
  table (`Increment`), as a function of the table and the user.
- `Payments` (`payments.dfy`): the premium state machine, as pure transitions
  on the profile table. Stripe's answers are inputs:
  - `CreateOutcome` is what `Session.create` answers.
  - `RetrieveOutcome` is what `Session.retrieve` answers.
  - `Verification` is `Verified(event) | InvalidPayload | BadSignature`, the
    outcome of `Webhook.construct_event`.
- `Views` (`views.dfy`): class `Store` holds the three tables (registered users,
  profiles, clicks) as fields. Each state-changing handler is a method that
  updates them in place, as the handlers do through the ORM. Each method's
  postcondition ties the new tables to the pure definitions above. A client
  method (`SignupClickAndPay`) runs an end-to-end scenario: sign-up, clicks, a
  webhook and the leaderboard. The read-only `leaderboard` handler is the pure
  function `Leaderboard.LeaderboardPage` of the click table.

Behaviour of the code that the model keeps:

- `button_click` uses `get_or_create(user=...)`. It raises
  `MultipleObjectsReturned` when a user owns two or more click rows, because
  the click table's user column is not unique. The handler turns that into the
  `success: false` / 400 answer, and the model exhibits this failure path.
- The `profile` view never creates a missing click row. `first()` returns
  `None` and does not raise, so its `except` branch never runs. Of the two page
  views, only `game` creates the row. `signup` and the `get_or_create` of
  `button_click` also create one.
- `create_checkout_session` calls `get_or_create` on the profile before it
  checks the premium flag. So it can write a profile row locally, even though
  no other local state changes.
- The database leaves the order of equal counts unspecified. The model keeps
  table order among ties, both for the top list and for `first()`.

## Model

| member | source | states |
|---|---|---|
| Models.NewClick | game/models.py:18 | definition: a click row created for `u` belongs to `u` and starts at the field default of 0 clicks |
| Models.SortedByCount | game/models.py:21-22 | the `-click_count` ordering: every pair of rows is in non-increasing count order, which holds exactly when every row holds at least the count of the next |
| Models.SortedIffAdjacent | game/models.py:21-22 | ordering all pairs of rows and ordering neighbouring rows are equivalent |
| Models.RowCountZero | game/views.py:130-133 | the filter count of a user's rows is 0 exactly when no row belongs to the user |
| Models.AtMostOneRowCount | game/views.py:130-133 | no two rows belong to the user exactly when the user's filter count is at most 1 |
| Models.OwnsAtMostOne | game/views.py:130-133 | `get(user=u)` does not raise `MultipleObjectsReturned` exactly when the user owns at most one row by count |
| Leaderboard.FirstOf | game/views.py:103 | `first()` under the descending-count ordering: nothing exactly when the user owns no row; otherwise a row of the user whose count is at least that of every other row of the user |
| Leaderboard.FirstOfOnlyRow | game/views.py:80 | when the user owns exactly one row, `first()` yields that row |
| Leaderboard.CountAbove | game/views.py:106 | the `click_count__gt` filter count never exceeds the number of rows |
| Leaderboard.CountAboveOwnRow | game/views.py:106 | a row never counts as above itself, so fewer than all rows lie above a stored count |
| Leaderboard.CountAboveZero | game/views.py:106 | no row lies above `n` exactly when every count is at most `n` |
| Leaderboard.CountAboveGap | game/views.py:106 | raising the threshold past a row's count drops at least that row |
| Leaderboard.CountAboveAntitone | game/views.py:106 | a higher threshold never counts more rows |
| Leaderboard.UserRank | game/views.py:99-106 | a rank exists exactly when the user owns a row, and it lies between 1 and the number of rows |
| Leaderboard.RankDenseTies | game/views.py:106 | users whose best rows hold equal counts share a rank |
| Leaderboard.RankStrictlyBetter | game/views.py:106 | a user with strictly more clicks has a strictly smaller rank |
| Leaderboard.RankOneIffUnbeaten | game/views.py:106 | rank 1 exactly when no row has a larger count |
| Leaderboard.TotalPlayers | game/views.py:111 | counts only rows with a positive count: at most the number of rows, and 0 exactly when no count is positive |
| Leaderboard.TotalClicks | game/views.py:112 | `total_clicks` (SQL `SUM`, which is NULL over no rows, then `or 0`) is the sum of all counts, and 0 when there are no rows |
| Leaderboard.PlayersBoundClicks | game/views.py:111-112 | with non-negative counts, `total_players <= total_clicks`, and one is 0 exactly when the other is |
| Leaderboard.SumCountsUpdate | game/views.py:136-137 | saving one row changes the sum by the change in that row's count |
| Leaderboard.SumCountsAppend | game/views.py:130-133 | creating a row adds its count to the sum |
| Leaderboard.CountAboveUpdate | game/views.py:136-137 | saving one row changes a filter count by at most that row |
| Leaderboard.CountAboveAppend | game/views.py:130-133 | creating a row adds it to a filter count exactly when its count passes the threshold |
| Leaderboard.InsertByCount | game/models.py:22 | inserting a row into a descending-ordered table keeps it ordered and adds exactly that row |
| Leaderboard.InsertBehindHead | game/models.py:22 | when the inserted row is below the head, keeping the head in front preserves the order and the multiset of rows |
| Leaderboard.SortedCons | game/models.py:22 | a row not below the head of an ordered table can go in front of it |
| Leaderboard.SortByCount | game/views.py:96 | `order_by('-click_count')` is in non-increasing order and is a permutation of the table |
| Leaderboard.SortedTail | game/views.py:96 | in the ordered table, no row after the cut beats the last row before it |
| Leaderboard.PrefixOfSorted | game/views.py:96 | the first `k` rows of the ordered table number `k`, are ordered, are drawn from the table, and no row left out beats the last one taken |
| Leaderboard.TakeTop | game/views.py:96 | the slice `[:k]` of the ordered table holds `k` rows in order, drawn from the table, and no row left out beats its last row |
| Leaderboard.TopPlayers | game/views.py:96 | the top list holds `min(100, rows)` rows in non-increasing order, drawn from the table; no row left out beats the last row listed |
| Leaderboard.LeaderboardPage | game/views.py:93-121 | a rank and row are shown exactly to a signed-in visitor who owns a row; the row is the visitor's best, and the rank is 1 + the rows with more clicks, within 1..rows; the top list has `min(100, rows)` rows, in order, drawn from the table, with no row left out beating its last; `total_players` is the number of rows with a positive count, 0 exactly when no count is positive, and `total_clicks` is the sum of all counts |
| Payments.GetOrCreateProfile | game/models.py:7-9 | one profile per user: an existing profile is kept as it is, and a missing one is created not premium and without a customer id; no other profile changes |
| Payments.MarkPremium | game/views.py:259-262 | the upgraded user is premium with the given customer id, and every other profile is unchanged |
| Payments.CreateCheckoutSession | game/views.py:153-194 | an already-premium user gets the no-op answer, makes no remote call and keeps their profile; otherwise the call carries the user's e-mail, the configured price in usd and the user id as metadata, and the answer redirects to Stripe's URL or reports the error; the premium flag never changes |
| Payments.HasSessionId | game/views.py:200-202 | definition: `if session_id:` is false for an absent and for an empty session id |
| Payments.PaymentSuccess | game/views.py:197-220 | the signed-in user is upgraded, with the session's customer id, exactly when there is a session id, the retrieval succeeds and the session is paid; otherwise nothing changes and the browser goes to the profile |
| Payments.WebhookTarget | game/views.py:249-258 | definition: a verified `checkout.session.completed` event names an upgrade target exactly when its metadata holds the id of a registered user |
| Payments.StripeWebhook | game/views.py:230-266 | a bad payload or signature gets 400 and changes nothing; every verified event gets 200; only the target user is upgraded |
| Payments.MarkPremiumIdempotent | game/views.py:259-262 | applying the same upgrade twice is the same as applying it once |
| Payments.MarkPremiumCommutes | game/views.py:259-262 | upgrades of two different users commute |
| Payments.WebhookReplayIdempotent | game/views.py:230-266 | a redelivered event leaves the profiles and the status as the first delivery did |
| Payments.WebhookUpgradesMetadataUser | game/views.py:249-262 | a completed checkout naming a registered user sets that user's flag and customer id and leaves every other profile alone |
| Payments.WebhookIgnoresOthers | game/views.py:249-266 | other event types, missing metadata and unknown users get 200 and change nothing |
| Payments.PremiumNeverRevoked | game/views.py:153-266 | neither checkout, nor the success redirect, nor the webhook ever clears a premium flag |
| Payments.RedirectAndWebhookConverge | game/views.py:197-266 | for a paid session of the signed-in user, the redirect and the webhook reach the same profiles in either order, and either one alone already does |
| Payments.RedirectTrustsSignedInUser | game/views.py:208-213 | the redirect upgrades the signed-in user even when the session's metadata names another user, whose profile is left as it was |
| Views.Store.Signup | game/views.py:25-34 | a new user gets a profile that is not premium and one click row at 0 |
| Views.Store.EnsureProfile | game/views.py:53-57 | the profile is created with the defaults when missing and returned; clicks and users are unchanged |
| Views.Store.SetPremium | game/views.py:210-213 | get or create the profile, then set the premium flag and the customer id |
| Views.Store.ProfileView | game/views.py:50-68 | the profile is created when missing; the click row shown is `first()`, and it is absent when the user owns no row; the click table is unchanged |
| Views.Store.GameView | game/views.py:71-90 | the profile is created when missing, and a click row at 0 is created exactly when the user owns none; afterwards `first()` is the row shown |
| Views.Store.LookupClicks | game/views.py:130-133 | the scan answers "does not exist" exactly when the user owns no row, and "multiple objects" exactly when the user owns two or more; otherwise it answers the index of the user's only row |
| Clicks.RowIndex | game/views.py:130-133 | the position found is a row of the user, and no earlier row is the user's |
| Clicks.CreateRow | game/views.py:130-133 | creating a row at 0 for a user who owns none leaves the user with exactly one row and leaves both totals unchanged |
| Clicks.RaiseOnlyRow | game/views.py:136-137 | adding one to a user's only row makes `first()` the raised row, adds one to the click total, and adds a player exactly when the row was at 0 |
| Clicks.Increment | game/views.py:126-150 | with several rows: status 400 and nothing changed. Otherwise the answer is one more than the stored count, or 1 when the row is created at 0, and the stored count then equals the answer. Only the user's row changes and no count decreases. The click total grows by one, and the player total grows exactly on the user's first click |
| Clicks.IncrementOnlyRow | game/views.py:130-143 | for a user owning exactly one row, a click raises that row by one and answers its new count |
| Views.Store.ButtonClick | game/views.py:124-150 | the answer and the new click table are exactly those of `Clicks.Increment`; users and profiles are unchanged |
| Views.Store.CreateCheckoutSession | game/views.py:153-194 | the answer, the remote call and the new profiles are those of `Payments.CreateCheckoutSession`; users and clicks are unchanged |
| Views.Store.PaymentSuccess | game/views.py:197-220 | the answer and the new profiles are those of `Payments.PaymentSuccess`; users and clicks are unchanged |
| Views.Store.StripeWebhook | game/views.py:230-266 | the status and the new profiles are those of `Payments.StripeWebhook`; users and clicks are unchanged |
| Views.ValidStoreTotals | game/views.py:111-112 | in a valid store (no negative count), which every handler preserves, `total_players <= total_clicks`, and one is 0 exactly when the other is |
| Views.ClickOnlyRow | game/views.py:130-143 | a click on a user's only row raises exactly that row by one and answers its new count |
| Views.TwoPlayerRank | game/views.py:106 | in the table with counts 3 and 1, the first player ranks 1 |
| Views.TwoPlayerTotals | game/views.py:111-112 | the table with counts 3 and 1 has two players and four clicks |
| Views.TwoPlayerTop | game/views.py:96 | the table with counts 3 and 1 is listed as it stands |
| Views.TwoPlayerPage | game/views.py:93-121 | with counts 3 and 1, the first player ranks 1, both are players, the total is 4 and the list is in descending order |
| Views.SignupClickAndPay | game/views.py:25-266 | sign-up, three clicks and a completed-checkout webhook give a count of 3, premium, rank 1 ahead of a one-click player, and totals of 2 players and 4 clicks |

## Left out

- All Stripe calls (`Session.create`, `Session.retrieve`, `Webhook.construct_event`) are inputs, not code. So is the HMAC signature check, which the Stripe library performs.
- The metadata user id is `Option<UserId>`. Stripe sends metadata values as strings. A non-numeric id would make the user lookup raise an uncaught error (a 500 answer), and the model does not capture that.
- Clicks.Increment: no database failure other than `MultipleObjectsReturned` is modelled. Also absent is the 32-bit limit of the `IntegerField` column, which some databases enforce. Counts are unbounded integers.
- Concurrency: the increment reads, modifies and saves, so racing clicks can lose updates. The model runs requests one at a time.
- The `last_clicked` timestamp, the models' `__str__` formatting, the click message text (`Click #n!`), flash messages, templates, redirects, authentication decorators and CSRF exemption are not modelled. The signed-in user is a parameter that must be a registered user.
- Sign-up form validation and the password handling of `signup`, the `home` and `payment_cancel` pages, the URL table, forms, admin and WSGI bootstrap are not part of this model.
- Payments.CreateCheckoutSession: the checkout call records only the e-mail, currency, amount, quantity and metadata user id. The product name and description, the payment method types, the mode and the success and cancel URLs are constant framework strings and are not modelled.
- The remote-call failure of `create_checkout_session` is the `CreateFailed` input. Its message text is not modelled.
