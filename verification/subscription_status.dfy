/** The subscription status card: the plan name looked up from the price id,
    the Active/Inactive badge, the renewal date, and the card shown when
    there is no subscription. */
module SubscriptionStatus {
  import opened JsValues

  /** The three configured price ids (VITE_STRIPE_PRICE_ID_BASIC, _PREMIUM,
      _ADVANCED); an unset variable reads undefined. */
  datatype PriceIds = PriceIds(basic: JsValue, premium: JsValue, advanced: JsValue)

  datatype Subscription = Subscription(planStatus: JsValue, priceId: JsValue, subscriptionEndsAt: JsValue)

  /** `getPlanName`: the object literal's keys are the price ids converted to
      property keys, a later key replacing an equal earlier one; a price id
      that is not a key falls back to "Custom Plan". */
  function GetPlanName(priceId: JsValue, ids: PriceIds): (name: string)
    ensures name in {"Basic Plan", "Premium Plan", "Advanced Plan", "Custom Plan"}
    ensures name == "Custom Plan" <==>
              PropertyKey(priceId) !in {PropertyKey(ids.basic), PropertyKey(ids.premium), PropertyKey(ids.advanced)}
  {
    var key := PropertyKey(priceId);
    if key == PropertyKey(ids.advanced) then "Advanced Plan"
    else if key == PropertyKey(ids.premium) then "Premium Plan"
    else if key == PropertyKey(ids.basic) then "Basic Plan"
    else "Custom Plan"
  }

  /** With three distinct configured ids, each maps to its own plan name. */
  lemma ConfiguredIdsNamed(basic: string, premium: string, advanced: string)
    requires basic != premium && basic != advanced && premium != advanced
    ensures GetPlanName(Str(basic), PriceIds(Str(basic), Str(premium), Str(advanced))) == "Basic Plan"
    ensures GetPlanName(Str(premium), PriceIds(Str(basic), Str(premium), Str(advanced))) == "Premium Plan"
    ensures GetPlanName(Str(advanced), PriceIds(Str(basic), Str(premium), Str(advanced))) == "Advanced Plan"
  {
  }

  /** An unset variable makes its key the text "undefined", so a subscription
      without a price id is shown under that plan's name. */
  lemma UnsetIdMatchesMissingPriceId(premium: string, advanced: string)
    requires premium != "undefined" && advanced != "undefined"
    ensures GetPlanName(Undefined, PriceIds(Undefined, Str(premium), Str(advanced))) == "Basic Plan"
  {
  }

  /** The badge reads "Active" (variant 'default') exactly when the plan
      status is the string 'active', and "Inactive" ('outline') otherwise. */
  function Badge(s: Subscription): (badge: (string, string))
    ensures badge.0 == "Active" <==> s.planStatus == Str("active")
    ensures badge.0 == "Inactive" <==> s.planStatus != Str("active")
    ensures badge.1 == (if badge.0 == "Active" then "default" else "outline")
  {
    if s.planStatus == Str("active") then ("Active", "default") else ("Inactive", "outline")
  }

  /** The renewal date: 'N/A' unless the end date is truthy, then the date
      formatter's text, given here as `formatDate`. */
  function RenewalDate(s: Subscription, formatDate: JsValue -> string): (text: string)
    ensures !Truthy(s.subscriptionEndsAt) ==> text == "N/A"
    ensures Truthy(s.subscriptionEndsAt) ==> text == formatDate(s.subscriptionEndsAt)
  {
    if Truthy(s.subscriptionEndsAt) then formatDate(s.subscriptionEndsAt) else "N/A"
  }

  datatype Card =
    | NoSubscriptionCard(description: string)
    | StatusCard(badge: string, badgeVariant: string, planName: string, renewal: string)

  /** The card for the `subscription` of the auth context (None when it is
      falsy or absent). */
  function View(subscription: Option<Subscription>, ids: PriceIds, formatDate: JsValue -> string): (card: Card)
    ensures subscription.None? <==> card == NoSubscriptionCard("You don't have an active subscription")
    ensures subscription.Some? ==> card.StatusCard? && card.planName == GetPlanName(subscription.value.priceId, ids)
    ensures subscription.Some? ==> (card.badge == "Active" <==> subscription.value.planStatus == Str("active"))
    ensures subscription.Some? ==> card.badgeVariant == (if card.badge == "Active" then "default" else "outline")
    ensures subscription.Some? ==> card.renewal == RenewalDate(subscription.value, formatDate)
    ensures subscription.Some? && !Truthy(subscription.value.subscriptionEndsAt) ==> card.renewal == "N/A"
  {
    match subscription
    case None => NoSubscriptionCard("You don't have an active subscription")
    case Some(s) =>
      var badge := Badge(s);
      StatusCard(badge.0, badge.1, GetPlanName(s.priceId, ids), RenewalDate(s, formatDate))
  }
}
