/** The cancel-subscription button: when it renders, what its trigger shows
    and whether it is disabled, the confirmation dialog's date, and how the
    confirm handler steps the loading and open states. */
module CancelSubscriptionButton {
  import opened JsValues

  /** The fields of the signed-in user the component reads. */
  datatype AuthUser = AuthUser(id: JsValue, isSubscribed: JsValue, planStatus: JsValue, subscriptionEndsAt: JsValue)

  /** The render guard: the button renders only for a user whose
      `is_subscribed` is exactly the number 1 and whose plan status is not
      'canceled'. A rendered button is labelled "Cancel Subscription". */
  predicate Renders(user: Option<AuthUser>)
    ensures Renders(user) ==> user.Some? && ButtonLabel(user.value) == "Cancel Subscription"
    ensures Renders(user) ==> user.Some? && !TriggerDisabled(user.value, false)
  {
    user.Some? && user.value.isSubscribed == Num(1) && user.value.planStatus != Str("canceled")
  }

  /** The guard decides exactly: it renders for a user whose is_subscribed is
      strictly the number 1 (neither `true` nor "1" counts) and whose plan is
      not 'canceled', and for nobody else. */
  lemma OnlyTheNumberOneRenders(u: AuthUser)
    ensures Renders(Some(u)) ==> u.isSubscribed == Num(1)
    ensures !Renders(Some(u.(isSubscribed := Bool(true))))
    ensures !Renders(Some(u.(isSubscribed := Str("1"))))
    ensures !Renders(None)
    ensures !Renders(Some(u.(planStatus := Str("canceled"))))
    ensures u.isSubscribed == Num(1) && u.planStatus != Str("canceled") ==> Renders(Some(u))
  {
  }

  /** `buttonLabel`: "Subscription Ending" exactly when a click could not
      open the dialog even when idle. */
  function ButtonLabel(u: AuthUser): (caption: string)
    ensures caption in {"Subscription Ending", "Cancel Subscription"}
    ensures caption == "Subscription Ending" <==> TriggerDisabled(u, false)
  {
    if u.planStatus == Str("canceled") then "Subscription Ending" else "Cancel Subscription"
  }

  /** The trigger's `disabled`: always while loading; when idle, only for a
      canceled plan. */
  predicate TriggerDisabled(u: AuthUser, isLoading: bool)
    ensures isLoading ==> TriggerDisabled(u, isLoading)
    ensures TriggerDisabled(u, isLoading) && !isLoading ==> u.planStatus == Str("canceled")
  {
    u.planStatus == Str("canceled") || isLoading
  }

  /** The trigger's content: a spinner with "Processing..." while loading. */
  function TriggerText(u: AuthUser, isLoading: bool): (text: string)
    ensures text == "Processing..." <==> isLoading
    ensures !isLoading ==> text == ButtonLabel(u)
  {
    if isLoading then "Processing..." else ButtonLabel(u)
  }

  /** Whenever the button renders, its label is "Cancel Subscription" (the
      "Subscription Ending" branch cannot be reached) and its trigger is
      disabled exactly while loading. */
  lemma RenderedButton(u: AuthUser, isLoading: bool)
    requires Renders(Some(u))
    ensures ButtonLabel(u) == "Cancel Subscription"
    ensures TriggerDisabled(u, isLoading) <==> isLoading
    ensures TriggerText(u, isLoading) == if isLoading then "Processing..." else "Cancel Subscription"
  {
  }

  /** `formatDate`: a missing or empty date reads 'N/A'; any other value is
      rendered by the locale formatter, given here as `localeDate`. */
  function FormatDate(date: JsValue, localeDate: JsValue -> string): (s: string)
    ensures date == Undefined || date == Null || date == Str("") ==> s == "N/A"
    ensures Truthy(date) ==> s == localeDate(date)
  {
    if !Truthy(date) then "N/A" else localeDate(date)
  }

  /** How an awaited call ended. */
  datatype Outcome = Succeeded | Failed

  datatype Toast = SuccessToast(text: string) | ErrorToast(text: string)

  const CanceledToast := SuccessToast("Subscription canceled successfully")
  const FailedToast := ErrorToast("Failed to cancel subscription. Please try again.")

  /** The toasts one run of the handler shows. A failing refresh runs inside
      the same try block, so it adds the failure toast after the success one. */
  function HandlerToasts(cancel: Outcome, hasRefresh: bool, refresh: Outcome): (t: seq<Toast>)
    ensures cancel == Failed ==> t == [FailedToast]
    ensures cancel == Succeeded ==> |t| >= 1 && t[0] == CanceledToast
    ensures FailedToast in t <==> cancel == Failed || (hasRefresh && refresh == Failed)
  {
    if cancel == Failed then [FailedToast]
    else if hasRefresh && refresh == Failed then [CanceledToast, FailedToast]
    else [CanceledToast]
  }

  /** The component's state once it has rendered for `user`. */
  class CancelDialog {
    const user: AuthUser
    var isLoading: bool
    var isOpen: bool
    /** Toasts shown so far, oldest first. */
    var toasts: seq<Toast>
    /** The user ids sent to the cancel endpoint, in order. */
    var requests: seq<JsValue>
    /** How many times the user data was refreshed. */
    var refreshes: nat

    constructor(user: AuthUser)
      requires Renders(Some(user))
      ensures this.user == user
      ensures !isLoading && !isOpen && toasts == [] && requests == [] && refreshes == 0
    {
      this.user := user;
      isLoading := false;
      isOpen := false;
      toasts := [];
      requests := [];
      refreshes := 0;
    }

    /** A click on the trigger opens the dialog; a disabled button ignores it. */
    method ClickTrigger()
      modifies this
      ensures isOpen == (old(isOpen) || !TriggerDisabled(user, isLoading))
      ensures isLoading == old(isLoading) && toasts == old(toasts)
      ensures requests == old(requests) && refreshes == old(refreshes)
    {
      if !TriggerDisabled(user, isLoading) {
        isOpen := true;
      }
    }

    /** The dialog's own open/close requests (the close button, Escape). */
    method OpenChange(open: bool)
      modifies this
      ensures isOpen == open
      ensures isLoading == old(isLoading) && toasts == old(toasts)
      ensures requests == old(requests) && refreshes == old(refreshes)
    {
      isOpen := open;
    }

    /** handleCancelSubscription: send the cancellation, close the dialog
        and refresh on success, report a failure otherwise; loading ends in
        either case. `cancel` and `refresh` are how the two awaited calls end;
        `hasRefresh` says whether a refresh function was provided. */
    method HandleCancelSubscription(cancel: Outcome, hasRefresh: bool, refresh: Outcome)
      modifies this
      ensures !isLoading
      ensures isOpen == (if cancel == Succeeded then false else old(isOpen))
      ensures requests == old(requests) + [user.id]
      ensures toasts == old(toasts) + HandlerToasts(cancel, hasRefresh, refresh)
      ensures refreshes == old(refreshes) + (if cancel == Succeeded && hasRefresh then 1 else 0)
    {
      isLoading := true;
      requests := requests + [user.id];
      if cancel == Succeeded {
        isOpen := false;
        toasts := toasts + [CanceledToast];
        if hasRefresh {
          refreshes := refreshes + 1;
          if refresh == Failed {
            toasts := toasts + [FailedToast];
          }
        }
      } else {
        toasts := toasts + [FailedToast];
      }
      isLoading := false;
    }
  }
}
