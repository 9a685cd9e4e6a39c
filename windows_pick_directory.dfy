/**
 * The Win32 folder browser (src/windows/pick_directory.rs): a straight-line
 * sequence with four returns. Each return undoes this call's COM
 * initialisation when, and only when, it succeeded, and a non-null PIDL from
 * the browser is freed exactly once, before its path is looked at.
 */
module WinPickDirectory {

  import opened Wrappers
  import opened DialogTypes
  import opened WinWide
  import opened Win32

  /**
   * `show`. `initHr` is what `CoInitializeEx` answers, `lookup` what
   * `window_handle()` answers, `browsed` the PIDL `SHBrowseForFolderW` returns
   * (0 when cancelled) and `extract` what `SHGetPathFromIDListW` returns and
   * writes; `info` is the `BROWSEINFOW` passed, if the browser was shown.
   */
  method Show(com: ComApartment, shell: ShellMemory, title: string,
              lookup: Result<RawWindowHandle, HandleError>, initHr: int, browsed: nat, extract: BufferFill)
    returns (r: Result<Option<string>, DialogError>, info: Option<BrowseInfo>)
    requires browsed == 0 || browsed !in shell.live
    requires |extract.written| <= MAX_PATH
    modifies com, shell
    ensures com.depth == old(com.depth)
    ensures com.initCount == old(com.initCount) + (if Succeeded(initHr) then 1 else 0)
    ensures com.uninitCount == old(com.uninitCount) + (if Succeeded(initHr) then 1 else 0)
    ensures shell.live == old(shell.live)
    ensures shell.freed == old(shell.freed) + (if info.Some? && browsed != 0 then multiset{browsed} else multiset{})
    ensures lookup.Err? ==> r == Err(Handle(lookup.error)) && info == None
    ensures lookup.Ok? && !lookup.value.Win32? ==> r == Err(Handle(NotSupported)) && info == None
    ensures lookup.Ok? && lookup.value.Win32? ==>
      info == Some(BrowseInfo(lookup.value.hwnd, Widen(title), BIF_RETURNONLYFSDIRS | BIF_NEWDIALOGSTYLE)) &&
      r == Ok(if browsed != 0 && extract.succeeded
              then Some(Unwiden(Overwrite(Zeros(MAX_PATH), extract.written)))
              else None)
  {
    var comInitialized := com.CoInitializeEx(initHr);

    if lookup.Err? {
      if comInitialized {
        com.CoUninitialize();
      }
      return Err(Handle(lookup.error)), None;
    }
    if !lookup.value.Win32? {
      if comInitialized {
        com.CoUninitialize();
      }
      return Err(Handle(NotSupported)), None;
    }

    var hwnd := lookup.value.hwnd;
    var titleWide := Widen(title);
    var browseInfo := BrowseInfo(hwnd, titleWide, BIF_RETURNONLYFSDIRS | BIF_NEWDIALOGSTYLE);
    info := Some(browseInfo);

    var pidl := shell.BrowseForFolder(browseInfo, browsed);

    if pidl == 0 {
      if comInitialized {
        com.CoUninitialize();
      }
      return Ok(None), info;
    }

    var pszpath := new u16[MAX_PATH](_ => 0);
    ghost var before := pszpath[..];
    assert before == Zeros(MAX_PATH);
    var success := shell.GetPathFromIdList(pidl, pszpath, extract);

    shell.CoTaskMemFree(pidl);
    if comInitialized {
      com.CoUninitialize();
    }

    if success {
      var path := Unwiden(pszpath[..]);
      r := Ok(Some(path));
    } else {
      r := Ok(None);
    }
  }
}
