/**
 * The macOS directory picker (src/macos/pick_directory.rs): an `NSOpenPanel`
 * for one directory, run as a sheet; on OK the paths are collected and the
 * last one is returned.
 */
module MacPickDirectory {

  import opened Wrappers
  import opened DialogTypes
  import opened AppKit

  /** What the panel was configured with, and the window it is a sheet on. */
  datatype PanelShown = PanelShown(panel: OpenPanelConfig, sheetOn: nat)

  /**
   * `show`. `onMainThread` is whether `MainThreadMarker::new()` succeeds,
   * `lookup` what `window_handle()` answers, `response` the code the modal run
   * ends with and `urls` what `panel.URLs()` then returns. A view without a
   * window is reported, not unwrapped.
   */
  method Show(title: string, onMainThread: bool, lookup: Result<RawWindowHandle, HandleError>,
              response: int, urls: seq<Url>)
    returns (r: Result<Option<string>, DialogError>, shown: Option<PanelShown>)
    ensures !onMainThread ==> r == Err(NotOnMainThread) && shown == None
    ensures onMainThread && lookup.Err? ==> r == Err(Handle(lookup.error)) && shown == None
    ensures onMainThread && lookup.Ok? && !lookup.value.AppKit? ==> r == Err(Handle(NotSupported)) && shown == None
    ensures onMainThread && lookup.Ok? && lookup.value.AppKit? && lookup.value.view.window.None? ==>
      r == Err(Handle(Unavailable)) && shown == None
    ensures onMainThread && lookup.Ok? && lookup.value.AppKit? && lookup.value.view.window.Some? ==>
      shown == Some(PanelShown(OpenPanelConfig(title, false, true, false, []), lookup.value.view.window.value)) &&
      r == Ok(if response == NSModalResponseOK then Last(PathsOf(urls)) else None)
  {
    if !onMainThread {
      return Err(NotOnMainThread), None;
    }

    var panel := new OpenPanel();
    panel.SetTitle(title);
    panel.SetCanChooseFiles(false);
    panel.SetCanChooseDirectories(true);
    panel.SetAllowsMultipleSelection(false);

    if lookup.Err? {
      return Err(Handle(lookup.error)), None;
    }
    if !lookup.value.AppKit? {
      return Err(Handle(NotSupported)), None;
    }

    if lookup.value.view.window.None? {
      return Err(Handle(Unavailable)), None;
    }
    var nsWindow := lookup.value.view.window.value;
    shown := Some(PanelShown(panel.Config(), nsWindow));

    var paths := [];
    if response == NSModalResponseOK {
      paths := CollectPaths(urls);
    }
    r := Ok(Last(paths));
  }

  /**
   * On OK the answer is a path exactly when some URL has one, and it is then
   * the path of the last such URL.
   */
  lemma {:induction false} LastCollectedPath(urls: seq<Url>)
    ensures Last(PathsOf(urls)).Some? <==> exists i :: 0 <= i < |urls| && urls[i].path.Some?
    ensures urls != [] && urls[|urls| - 1].path.Some? ==> Last(PathsOf(urls)) == urls[|urls| - 1].path
  {
    if urls != [] {
      var init := urls[..|urls| - 1];
      var u := urls[|urls| - 1];
      assert urls == init + [u];
      PathsOfAppend(init, [u]);
      LastCollectedPath(init);
      if PathsOf(urls) == [] {
        assert PathsOf(init) == [] && u.path.None?;
        assert forall i :: 0 <= i < |urls| ==> urls[i].path.None? by {
          forall i | 0 <= i < |urls| ensures urls[i].path.None? {
            if i < |urls| - 1 {
              assert urls[i] == init[i];
            }
          }
        }
      } else {
        if PathsOf(init) != [] {
          var i :| 0 <= i < |init| && init[i].path.Some?;
          assert urls[i] == init[i];
        } else {
          assert urls[|urls| - 1].path.Some?;
        }
      }
    }
  }
}
