/**
 * The premium state machine over the profile table. Every call into Stripe is
 * an input here: the outcome of creating a checkout session, of retrieving one,
 * and of verifying a webhook's signature and payload.
 */
module Payments {
  import opened Models

  /** The webhook event type that confirms a payment. */
  const CheckoutCompleted := "checkout.session.completed"

  /** The payment status of a session that has been paid. */
  const Paid := "paid"

  /** The fields of a Stripe checkout session that the views read. */
  datatype CheckoutSession = CheckoutSession(
    paymentStatus: string,
    customer: Option<string>,
    metadataUserId: Option<UserId>)

  /** A webhook event whose data object is a checkout session. */
  datatype Event = Event(eventType: string, session: CheckoutSession)

  /** What `construct_event` does with the raw body and the signature header. */
  datatype Verification = Verified(event: Event) | InvalidPayload | BadSignature

  /** What `Session.create` does. */
  datatype CreateOutcome = Created(url: string) | CreateFailed

  /** What `Session.retrieve` does. */
  datatype RetrieveOutcome = Retrieved(session: CheckoutSession) | RetrieveFailed

  /** The parameters of the `Session.create` call that this model tracks. */
  datatype CheckoutRequest = CheckoutRequest(
    customerEmail: string,
    currency: string,
    unitAmount: int,
    quantity: nat,
    metadataUserId: UserId)

  datatype CheckoutResponse = AlreadyPremium | RedirectToCheckout(url: string) | CheckoutError
  datatype CheckoutResult = CheckoutResult(
    response: CheckoutResponse,
    remoteCall: Option<CheckoutRequest>,
    profiles: map<UserId, UserProfile>)

  datatype SuccessResponse = RenderSuccess | RedirectToProfile
  datatype SuccessResult = SuccessResult(response: SuccessResponse, profiles: map<UserId, UserProfile>)

  datatype WebhookResult = WebhookResult(status: int, profiles: map<UserId, UserProfile>)

  /** `UserProfile.objects.get_or_create(user=u)`: an existing profile is kept, a missing one gets the defaults. */
  function GetOrCreateProfile(profiles: map<UserId, UserProfile>, u: UserId): (r: map<UserId, UserProfile>)
    ensures r.Keys == profiles.Keys + {u}
    ensures forall v :: v in profiles ==> r[v] == profiles[v]
    ensures u !in profiles ==> r[u] == DefaultProfile
  {
    if u in profiles then profiles else profiles[u := DefaultProfile]
  }

  /** get_or_create followed by setting the premium flag and the customer id and saving. */
  function MarkPremium(profiles: map<UserId, UserProfile>, u: UserId, customer: Option<string>): (r: map<UserId, UserProfile>)
    ensures r.Keys == profiles.Keys + {u}
    ensures r[u].isPremium && r[u].stripeCustomerId == customer
    ensures forall v :: v in profiles && v != u ==> r[v] == profiles[v]
  {
    var p := GetOrCreateProfile(profiles, u);
    p[u := p[u].(isPremium := true, stripeCustomerId := customer)]
  }

  /** True when `u` has a profile whose premium flag is set. */
  predicate IsPremium(profiles: map<UserId, UserProfile>, u: UserId)
  {
    u in profiles && profiles[u].isPremium
  }

  /**
   * `create_checkout_session` for signed-in user `u` with e-mail `email`, at the
   * configured price `price`; `outcome` is what Stripe would do if it were called.
   */
  function CreateCheckoutSession(
    profiles: map<UserId, UserProfile>, u: UserId, email: string, price: int, outcome: CreateOutcome): (r: CheckoutResult)
    ensures r.response.AlreadyPremium? <==> IsPremium(profiles, u)
    ensures r.remoteCall.None? <==> IsPremium(profiles, u)
    ensures r.remoteCall.Some? ==>
      r.remoteCall.value == CheckoutRequest(email, "usd", price, 1, u)
    ensures r.response.RedirectToCheckout? <==> !IsPremium(profiles, u) && outcome.Created?
    ensures r.response.RedirectToCheckout? ==> r.response.url == outcome.url
    ensures r.profiles == GetOrCreateProfile(profiles, u)
    ensures IsPremium(r.profiles, u) == IsPremium(profiles, u)
  {
    var p := GetOrCreateProfile(profiles, u);
    if p[u].isPremium then
      CheckoutResult(AlreadyPremium, None, p)
    else
      var call := CheckoutRequest(email, "usd", price, 1, u);
      match outcome
      case Created(url) => CheckoutResult(RedirectToCheckout(url), Some(call), p)
      case CreateFailed => CheckoutResult(CheckoutError, Some(call), p)
  }

  /** True when the success redirect carries a session id that is truthy: neither absent nor empty. */
  predicate HasSessionId(sessionId: Option<string>)
  {
    sessionId.Some? && sessionId.value != ""
  }

  /**
   * `payment_success` for signed-in user `u`: the user is upgraded only when the
   * redirect carries a session id, Stripe returns the session, and it is paid.
   * The user upgraded is the signed-in one, whoever the session's metadata names.
   */
  function PaymentSuccess(
    profiles: map<UserId, UserProfile>, u: UserId, sessionId: Option<string>, outcome: RetrieveOutcome): (r: SuccessResult)
    ensures r.response.RenderSuccess? <==>
      HasSessionId(sessionId) && outcome.Retrieved? && outcome.session.paymentStatus == Paid
    ensures r.response.RenderSuccess? ==> r.profiles == MarkPremium(profiles, u, outcome.session.customer)
    ensures r.response.RedirectToProfile? ==> r.profiles == profiles
  {
    if HasSessionId(sessionId) && outcome.Retrieved? && outcome.session.paymentStatus == Paid then
      SuccessResult(RenderSuccess, MarkPremium(profiles, u, outcome.session.customer))
    else
      SuccessResult(RedirectToProfile, profiles)
  }

  /** The registered user a verified webhook upgrades, if any. */
  function WebhookTarget(users: set<UserId>, v: Verification): Option<UserId>
  {
    if v.Verified? && v.event.eventType == CheckoutCompleted then
      match v.event.session.metadataUserId
      case None => None
      case Some(id) => if id in users then Some(id) else None
    else None
  }

  /**
   * `stripe_webhook`: a payload or signature that fails verification is refused
   * with 400 and changes nothing; every verified event is answered with 200, and
   * only a completed checkout naming a registered user changes a profile.
   */
  function StripeWebhook(users: set<UserId>, profiles: map<UserId, UserProfile>, v: Verification): (r: WebhookResult)
    ensures !v.Verified? ==> r.status == 400 && r.profiles == profiles
    ensures v.Verified? ==> r.status == 200
    ensures WebhookTarget(users, v).None? ==> r.profiles == profiles
    ensures WebhookTarget(users, v).Some? ==>
      r.profiles == MarkPremium(profiles, WebhookTarget(users, v).value, v.event.session.customer)
  {
    match v
    case InvalidPayload => WebhookResult(400, profiles)
    case BadSignature => WebhookResult(400, profiles)
    case Verified(event) =>
      if event.eventType == CheckoutCompleted then
        var session := event.session;
        match session.metadataUserId
        case None => WebhookResult(200, profiles)
        case Some(id) =>
          if id in users then WebhookResult(200, MarkPremium(profiles, id, session.customer))
          else WebhookResult(200, profiles)
      else WebhookResult(200, profiles)
  }

  /** Upgrading a user twice with the same customer id is the same as upgrading once. */
  lemma MarkPremiumIdempotent(profiles: map<UserId, UserProfile>, u: UserId, customer: Option<string>)
    ensures MarkPremium(MarkPremium(profiles, u, customer), u, customer) == MarkPremium(profiles, u, customer)
  {
  }

  /** Upgrades of two different users commute. */
  lemma MarkPremiumCommutes(profiles: map<UserId, UserProfile>, u: UserId, cu: Option<string>, w: UserId, cw: Option<string>)
    requires u != w
    ensures MarkPremium(MarkPremium(profiles, u, cu), w, cw) == MarkPremium(MarkPremium(profiles, w, cw), u, cu)
  {
  }

  /** Stripe redelivering the same event leaves the profiles as the first delivery left them. */
  lemma WebhookReplayIdempotent(users: set<UserId>, profiles: map<UserId, UserProfile>, v: Verification)
    ensures StripeWebhook(users, StripeWebhook(users, profiles, v).profiles, v) == StripeWebhook(users, profiles, v)
  {
    if WebhookTarget(users, v).Some? {
      MarkPremiumIdempotent(profiles, WebhookTarget(users, v).value, v.event.session.customer);
    }
  }

  /** A completed checkout for a registered user makes that user premium with the session's customer id and touches no other profile. */
  lemma WebhookUpgradesMetadataUser(users: set<UserId>, profiles: map<UserId, UserProfile>, session: CheckoutSession, u: UserId)
    requires session.metadataUserId == Some(u) && u in users
    ensures var r := StripeWebhook(users, profiles, Verified(Event(CheckoutCompleted, session)));
      r.status == 200 && r.profiles[u] == UserProfile(true, session.customer) &&
      r.profiles.Keys == profiles.Keys + {u} &&
      forall v :: v in profiles && v != u ==> r.profiles[v] == profiles[v]
  {
  }

  /** Other event types, a missing metadata user and an unknown user are all acknowledged with 200 and change nothing. */
  lemma WebhookIgnoresOthers(users: set<UserId>, profiles: map<UserId, UserProfile>, event: Event)
    requires event.eventType != CheckoutCompleted || event.session.metadataUserId.None? ||
      event.session.metadataUserId.value !in users
    ensures StripeWebhook(users, profiles, Verified(event)) == WebhookResult(200, profiles)
  {
  }

  /** No transition ever takes premium away from a user or removes a profile. */
  lemma PremiumNeverRevoked(
    users: set<UserId>, profiles: map<UserId, UserProfile>, u: UserId, w: UserId,
    email: string, price: int, create: CreateOutcome,
    sessionId: Option<string>, retrieve: RetrieveOutcome, v: Verification)
    requires IsPremium(profiles, w)
    ensures IsPremium(CreateCheckoutSession(profiles, u, email, price, create).profiles, w)
    ensures IsPremium(PaymentSuccess(profiles, u, sessionId, retrieve).profiles, w)
    ensures IsPremium(StripeWebhook(users, profiles, v).profiles, w)
  {
  }

  /**
   * For a paid session whose metadata names the signed-in user, the redirect
   * and the webhook converge on the same profiles whichever arrives first, and
   * either alone already reaches that state.
   */
  lemma RedirectAndWebhookConverge(
    users: set<UserId>, profiles: map<UserId, UserProfile>, u: UserId, sessionId: string, session: CheckoutSession)
    requires sessionId != "" && session.paymentStatus == Paid
    requires session.metadataUserId == Some(u) && u in users
    ensures var ev := Verified(Event(CheckoutCompleted, session));
      var viaRedirect := PaymentSuccess(profiles, u, Some(sessionId), Retrieved(session)).profiles;
      var viaWebhook := StripeWebhook(users, profiles, ev).profiles;
      viaRedirect == viaWebhook &&
      StripeWebhook(users, viaRedirect, ev).profiles == viaRedirect &&
      PaymentSuccess(viaWebhook, u, Some(sessionId), Retrieved(session)).profiles == viaWebhook
  {
    MarkPremiumIdempotent(profiles, u, session.customer);
  }

  /**
   * The redirect path trusts the signed-in user rather than the session's
   * metadata: a paid session naming another user upgrades the signed-in user
   * and leaves the named user's profile as it was.
   */
  lemma RedirectTrustsSignedInUser(
    profiles: map<UserId, UserProfile>, u: UserId, other: UserId, sessionId: string, session: CheckoutSession)
    requires sessionId != "" && session.paymentStatus == Paid
    requires session.metadataUserId == Some(other) && other != u
    ensures var r := PaymentSuccess(profiles, u, Some(sessionId), Retrieved(session)).profiles;
      IsPremium(r, u) && (other in profiles <==> other in r) && (other in r ==> r[other] == profiles[other])
  {
  }
}
