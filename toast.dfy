/**
 * `Toast`: how the notification announces itself (its ARIA role and live
 * region), when it schedules its own dismissal, and when it shows a dismiss
 * button. The timer itself is not modelled, only whether one is set and for
 * how long.
 */
module Toast {
  import opened Text

  datatype Status = Default | Success | Warning | Error

  datatype ToastProps = ToastProps(
    status: Option<Status>,
    /** Milliseconds; `None` is an omitted prop. */
    duration: Option<int>,
    hasOnDismiss: bool)

  /** The dismiss button: its accessible name and the size of its `XIcon`. */
  datatype DismissButton = DismissButton(ariaLabel: string, iconSize: int)

  datatype ToastView = ToastView(
    role: string,
    ariaLive: string,
    /** The delay of the auto-dismiss timer, when one is scheduled. */
    timer: Option<int>,
    dismiss: Option<DismissButton>)

  const DefaultDuration: int := 5000

  function Duration(p: ToastProps): int {
    if p.duration.Some? then p.duration.value else DefaultDuration
  }

  function Role(status: Option<Status>): string {
    if status == Some(Error) then "alert" else "status"
  }

  function AriaLive(status: Option<Status>): string {
    if status == Some(Error) then "assertive" else "polite"
  }

  /** The effect schedules `onDismiss` after the duration when it is positive and given. */
  function AutoDismiss(p: ToastProps): Option<int> {
    if Duration(p) > 0 && p.hasOnDismiss then Some(Duration(p)) else None
  }

  /**
   * An error toast is an assertive alert; every other toast, including one
   * with no status, is a polite status, so role and live region always
   * agree. A timer is set exactly when there is an `onDismiss` and the
   * duration (5000 when omitted) is positive, and it waits that duration; a
   * zero or negative duration turns auto-dismiss off. The dismiss button,
   * named "Dismiss", shows exactly when there is an `onDismiss`.
   */
  function Toast(p: ToastProps): (v: ToastView)
    ensures v.role in {"alert", "status"}
    ensures v.role == "alert" <==> p.status == Some(Error)
    ensures v.ariaLive == "assertive" <==> v.role == "alert"
    ensures v.ariaLive == "polite" <==> v.role == "status"
    ensures v.timer.Some? <==> p.hasOnDismiss && Duration(p) > 0
    ensures v.timer.Some? ==> v.timer.value > 0 && v.timer.value == Duration(p)
    ensures p.duration.None? && p.hasOnDismiss ==> v.timer == Some(5000)
    ensures v.dismiss.Some? <==> p.hasOnDismiss
    ensures v.dismiss.Some? ==> v.dismiss.value.ariaLabel == "Dismiss"
    ensures v.timer.Some? ==> v.dismiss.Some?
  {
    ToastView(
      Role(p.status),
      AriaLive(p.status),
      AutoDismiss(p),
      if p.hasOnDismiss then Some(DismissButton("Dismiss", 16)) else None)
  }
}
