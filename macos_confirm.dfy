/**
 * The macOS confirmation (src/macos/confirm.rs): an `NSAlert` with Cancel
 * then OK, run as a sheet on the caller's AppKit window; the answer is yes
 * exactly when the response is the OK button's.
 */
module MacConfirm {

  import opened Wrappers
  import opened DialogTypes
  import opened AppKit

  /** What the confirmation put on screen, and the window it is a sheet on. */
  datatype ConfirmShown = ConfirmShown(alert: AlertConfig, sheetOn: nat)

  /**
   * `show`. `onMainThread` is whether `MainThreadMarker::new()` succeeds,
   * `iconFound` whether the level's symbol image exists, `lookup` what
   * `window_handle()` answers and `response` the code the modal run ends
   * with. The view's window is unwrapped, so an AppKit view must have one.
   */
  method Show(title: string, message: string, level: Level, onMainThread: bool, iconFound: bool,
              lookup: Result<RawWindowHandle, HandleError>, response: int)
    returns (r: Result<bool, DialogError>, shown: Option<ConfirmShown>)
    requires lookup.Ok? && lookup.value.AppKit? ==> lookup.value.view.window.Some?
    ensures !onMainThread ==> r == Err(NotOnMainThread) && shown == None
    ensures onMainThread && lookup.Err? ==> r == Err(Handle(lookup.error)) && shown == None
    ensures onMainThread && lookup.Ok? && !lookup.value.AppKit? ==> r == Err(Handle(NotSupported)) && shown == None
    ensures onMainThread && lookup.Ok? && lookup.value.AppKit? ==>
      shown == Some(ConfirmShown(
        AlertConfig(title, message, AlertStyleFor(level), ["Cancel", "OK"],
                    if iconFound then Some(IconSymbol(level)) else None),
        lookup.value.view.window.value)) &&
      r == Ok(ButtonFor(shown.value.alert.buttons, response) == Some("OK"))
  {
    if !onMainThread {
      return Err(NotOnMainThread), None;
    }

    var style := AlertStyleFor(level);
    var icon := if iconFound then Some(IconSymbol(level)) else None;

    var nsAlert := new Alert();
    nsAlert.SetMessageText(title);
    nsAlert.SetInformativeText(message);
    nsAlert.SetAlertStyle(style);
    var cancelResponse := nsAlert.AddButton("Cancel");
    var okResponse := nsAlert.AddButton("OK");
    assert nsAlert.buttons == ["Cancel", "OK"];

    if icon.Some? {
      nsAlert.SetIcon(icon.value);
    }

    if lookup.Err? {
      return Err(Handle(lookup.error)), None;
    }
    if !lookup.value.AppKit? {
      return Err(Handle(NotSupported)), None;
    }

    var nsWindow := lookup.value.view.window.value;
    shown := Some(ConfirmShown(nsAlert.Config(), nsWindow));
    assert okResponse == NSAlertSecondButtonReturn;
    r := Ok(response == NSAlertSecondButtonReturn);
  }
}
