/**
 * The macOS file picker (src/macos/pick_files.rs): an `NSOpenPanel` for files,
 * filtered by the resolvable extensions, run as a sheet; its paths are
 * collected only when the response is OK.
 */
module MacPickFiles {

  import opened Wrappers
  import opened DialogTypes
  import opened AppKit
  import opened MacFilter

  /** What the panel was configured with, and the window it is a sheet on. */
  datatype PanelShown = PanelShown(panel: OpenPanelConfig, sheetOn: nat)

  /**
   * `show`. `onMainThread` is whether `MainThreadMarker::new()` succeeds,
   * `registry` the extensions `UTType` resolves, `lookup` what
   * `window_handle()` answers, `response` the code the modal run ends with
   * and `urls` what `panel.URLs()` then returns. The view's window is
   * unwrapped, so an AppKit view must have one.
   */
  method Show(title: string, filters: seq<Filter>, multiple: bool, registry: map<string, UTType>,
              onMainThread: bool, lookup: Result<RawWindowHandle, HandleError>, response: int, urls: seq<Url>)
    returns (r: Result<seq<string>, DialogError>, shown: Option<PanelShown>)
    requires lookup.Ok? && lookup.value.AppKit? ==> lookup.value.view.window.Some?
    ensures !onMainThread ==> r == Err(NotOnMainThread) && shown == None
    ensures onMainThread && lookup.Err? ==> r == Err(Handle(lookup.error)) && shown == None
    ensures onMainThread && lookup.Ok? && !lookup.value.AppKit? ==> r == Err(Handle(NotSupported)) && shown == None
    ensures onMainThread && lookup.Ok? && lookup.value.AppKit? ==>
      shown == Some(PanelShown(
        OpenPanelConfig(title, true, false, multiple, Resolve(AllExtensions(filters), registry)),
        lookup.value.view.window.value)) &&
      r == Ok(if response == NSModalResponseOK then PathsOf(urls) else [])
  {
    if !onMainThread {
      return Err(NotOnMainThread), None;
    }

    var panel := new OpenPanel();
    panel.SetTitle(title);
    panel.SetCanChooseFiles(true);
    panel.SetCanChooseDirectories(false);
    panel.SetAllowsMultipleSelection(multiple);
    var types := GetFilter(filters, registry);
    panel.SetAllowedContentTypes(types);

    if lookup.Err? {
      return Err(Handle(lookup.error)), None;
    }
    if !lookup.value.AppKit? {
      return Err(Handle(NotSupported)), None;
    }

    var nsWindow := lookup.value.view.window.value;
    shown := Some(PanelShown(panel.Config(), nsWindow));

    var paths := [];
    if response == NSModalResponseOK {
      paths := CollectPaths(urls);
    }
    r := Ok(paths);
  }
}
