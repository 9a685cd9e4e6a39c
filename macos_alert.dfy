/**
 * The macOS alert (src/macos/alert.rs): an `NSAlert` shown as a sheet on the
 * caller's AppKit window when there is one, application-modal otherwise.
 */
module MacAlert {

  import opened Wrappers
  import opened DialogTypes
  import opened AppKit

  /** What the alert put on screen and how. */
  datatype AlertShown = AlertShown(alert: AlertConfig, presentation: Presentation)

  /** Whether `window` names an AppKit view (the sheet branch of lines 55-57). */
  predicate IsAppKit(window: Option<RawWindowHandle>)
  {
    window.Some? && window.value.AppKit?
  }

  /**
   * `show`. `onMainThread` is whether `MainThreadMarker::new()` succeeds and
   * `iconFound` whether the level's symbol image exists. The view's window is
   * unwrapped, so an AppKit view must have one.
   */
  method Show(title: string, message: string, level: Level, window: Option<RawWindowHandle>,
              onMainThread: bool, iconFound: bool)
    returns (r: Result<(), DialogError>, shown: Option<AlertShown>)
    requires IsAppKit(window) ==> window.value.view.window.Some?
    ensures !onMainThread ==> r == Err(NotOnMainThread) && shown == None
    ensures onMainThread ==> r == Ok(())
    ensures onMainThread ==>
      && shown.Some?
      && shown.value.alert == AlertConfig(title, message, AlertStyleFor(level), [],
                                          if iconFound then Some(IconSymbol(level)) else None)
      && shown.value.presentation == if IsAppKit(window) then Sheet(window.value.view.window.value) else AppModal
  {
    if !onMainThread {
      return Err(NotOnMainThread), None;
    }

    var style := AlertStyleFor(level);
    var icon := if iconFound then Some(IconSymbol(level)) else None;

    var nsAlert := new Alert();
    nsAlert.SetMessageText(title);
    nsAlert.SetInformativeText(message);
    nsAlert.SetAlertStyle(style);

    if icon.Some? {
      nsAlert.SetIcon(icon.value);
    }

    var presentation;
    if window.Some? && window.value.AppKit? {
      var nsWindow := window.value.view.window.value;
      presentation := Sheet(nsWindow);
    } else {
      presentation := AppModal;
    }
    shown := Some(AlertShown(nsAlert.Config(), presentation));
    r := Ok(());
  }
}
