/**
 * The macOS save dialog (src/macos/save_file.rs): an `NSSavePanel` filtered by
 * the resolvable extensions, with the default name filled in when given, run
 * as a sheet; a path is returned only for an OK response with a URL that has
 * a path.
 */
module MacSaveFile {

  import opened Wrappers
  import opened DialogTypes
  import opened AppKit
  import opened MacFilter

  /** What the panel was configured with, and the window it is a sheet on. */
  datatype PanelShown = PanelShown(panel: SavePanelConfig, sheetOn: nat)

  /**
   * `show`. `onMainThread` is whether `MainThreadMarker::new()` succeeds,
   * `registry` the extensions `UTType` resolves, `lookup` what
   * `window_handle()` answers, `response` the code the modal run ends with
   * and `url` what `panel.URL()` then returns. The view's window is
   * unwrapped, so an AppKit view must have one.
   */
  method Show(title: string, filters: seq<Filter>, defaultName: Option<string>, registry: map<string, UTType>,
              onMainThread: bool, lookup: Result<RawWindowHandle, HandleError>, response: int, url: Option<Url>)
    returns (r: Result<Option<string>, DialogError>, shown: Option<PanelShown>)
    requires lookup.Ok? && lookup.value.AppKit? ==> lookup.value.view.window.Some?
    ensures !onMainThread ==> r == Err(NotOnMainThread) && shown == None
    ensures onMainThread && lookup.Err? ==> r == Err(Handle(lookup.error)) && shown == None
    ensures onMainThread && lookup.Ok? && !lookup.value.AppKit? ==> r == Err(Handle(NotSupported)) && shown == None
    ensures onMainThread && lookup.Ok? && lookup.value.AppKit? ==>
      shown == Some(PanelShown(SavePanelConfig(title, Resolve(AllExtensions(filters), registry), defaultName),
                               lookup.value.view.window.value)) &&
      r.Ok? &&
      (r.value.Some? <==> response == NSModalResponseOK && url.Some? && url.value.path.Some?) &&
      (r.value.Some? ==> r.value == url.value.path)
  {
    if !onMainThread {
      return Err(NotOnMainThread), None;
    }

    var panel := new SavePanel();
    panel.SetTitle(title);
    var types := GetFilter(filters, registry);
    panel.SetAllowedContentTypes(types);

    if defaultName.Some? {
      panel.SetNameFieldStringValue(defaultName.value);
    }

    if lookup.Err? {
      return Err(Handle(lookup.error)), None;
    }
    if !lookup.value.AppKit? {
      return Err(Handle(NotSupported)), None;
    }

    var nsWindow := lookup.value.view.window.value;
    shown := Some(PanelShown(panel.Config(), nsWindow));

    if response == NSModalResponseOK && url.Some? && url.value.path.Some? {
      r := Ok(Some(url.value.path.value));
    } else {
      r := Ok(None);
    }
  }
}
