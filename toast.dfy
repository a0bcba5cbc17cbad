/**
 * The login reminder of the user pages (`toastIfLogin`): a module-level
 * timestamp rate-limits the reminders; an accepted call picks its message
 * from the stored login state and schedules one error toast after a delay.
 * The clock reading and the two stored entries are inputs; the scheduled
 * toasts are recorded in order instead of being shown.
 */
module UserUtils {
  import opened Base

  const NotLoggedIn: string := "您尚未登录 !"
  const LoginExpired: string := "登录身份已过期,请重新登录"

  /** A `localStorage` entry is truthy when present and non-empty. */
  predicate Present(entry: Option<string>)
  {
    entry.Some? && entry.value != ""
  }

  /** The message of an accepted call: the not-logged-in message wins over
      the expired one; None (`undefined`) when both entries are fine. */
  function Message(auth: Option<string>, loginStatus: Option<string>): (r: Option<string>)
    ensures r == Some(NotLoggedIn) <==> loginStatus != Some("login")
    ensures r == Some(LoginExpired) <==> loginStatus == Some("login") && !Present(auth)
    ensures r.None? <==> loginStatus == Some("login") && Present(auth)
  {
    var expired := if !Present(auth) then Some(LoginExpired) else None;
    if loginStatus != Some("login") then Some(NotLoggedIn) else expired
  }

  /** A scheduled error toast: when the call happened, when it fires, how
      long it stays, and its message. */
  datatype Toast = Toast(calledAt: int, firesAt: int, autoClose: int, message: Option<string>)

  /** Each toast's call came at least its duration plus 100 ms after the
      previous accepted call (the first after time 0). */
  predicate Spaced(toasts: seq<Toast>)
  {
    (|toasts| > 0 ==> toasts[0].calledAt >= toasts[0].autoClose + 100)
    && forall i :: 0 < i < |toasts| ==> toasts[i].calledAt - toasts[i - 1].calledAt >= toasts[i].autoClose + 100
  }

  /** With non-negative durations, any two scheduled toasts are more than
      100 ms apart, in call order. */
  lemma {:induction false} SpacedApart(toasts: seq<Toast>, i: nat, j: nat)
    requires Spaced(toasts) && i < j < |toasts|
    requires forall k :: 0 <= k < |toasts| ==> toasts[k].autoClose >= 0
    ensures toasts[j].calledAt - toasts[i].calledAt >= toasts[j].autoClose + 100
    decreases j - i
  {
    if i + 1 < j {
      SpacedApart(toasts, i, j - 1);
      assert toasts[j - 1].calledAt - toasts[i].calledAt >= 100;
    }
  }

  /** The module state: the last accepted time and the toasts scheduled. */
  class ToastGate {
    var lastToastTime: int
    var scheduled: seq<Toast>

    predicate Valid()
      reads this
    {
      Spaced(scheduled)
      && (|scheduled| == 0 ==> lastToastTime == 0)
      && (|scheduled| > 0 ==> lastToastTime == scheduled[|scheduled| - 1].calledAt)
    }

    constructor ()
      ensures Valid() && lastToastTime == 0 && scheduled == []
    {
      lastToastTime := 0;
      scheduled := [];
    }

    /** `toastIfLogin(delay, duration)` at clock reading `now`; the
        defaults are 300 and 1000 ms. */
    method ToastIfLogin(now: int, auth: Option<string>, loginStatus: Option<string>, delay: int, duration: int)
      returns (accepted: bool)
      requires Valid()
      modifies this
      ensures Valid()
      ensures accepted <==> now - old(lastToastTime) >= duration + 100
      ensures accepted ==> lastToastTime == now
                           && scheduled == old(scheduled) + [Toast(now, now + delay, duration, Message(auth, loginStatus))]
      ensures !accepted ==> lastToastTime == old(lastToastTime) && scheduled == old(scheduled)
    {
      if now - lastToastTime < duration + 100 {
        return false;
      }
      lastToastTime := now;
      var message: Option<string> := None;
      if !Present(auth) {
        message := Some(LoginExpired);
      }
      if loginStatus != Some("login") {
        message := Some(NotLoggedIn);
      }
      scheduled := scheduled + [Toast(now, now + delay, duration, message)];
      accepted := true;
    }
  }

  /** A logged-in user with a token still gets a toast, with no message. */
  lemma {:induction false} LoggedInStillToasts()
    ensures Message(Some("token"), Some("login")) == None
  {
  }
}
