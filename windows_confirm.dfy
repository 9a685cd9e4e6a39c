/**
 * The Win32 confirmation (src/windows/confirm.rs): an OK/Cancel `MessageBoxW`
 * owned by the caller's window, inside a COM initialisation that is undone on
 * every return path when, and only when, this call made it.
 */
module WinConfirm {

  import opened Wrappers
  import opened DialogTypes
  import opened WinWide
  import opened Win32

  /** `get_utype`: OK and Cancel buttons, the level's icon, and no other flag. */
  function ConfirmStyle(level: Level): (style: bv32)
    ensures IconLevel(style) == Some(level)
    ensures style & MB_TYPEMASK == MB_OKCANCEL
    ensures style & !(MB_TYPEMASK | MB_ICONMASK) == 0
  {
    match level
    case Info => MB_OKCANCEL | MB_ICONINFORMATION
    case Warning => MB_OKCANCEL | MB_ICONWARNING
    case Error => MB_OKCANCEL | MB_ICONERROR
  }

  /**
   * `show`. `initHr` is what `CoInitializeEx` answers, `lookup` what
   * `window_handle()` answers and `pressed` what `MessageBoxW` returns.
   */
  method Show(com: ComApartment, title: string, message: string, level: Level,
              lookup: Result<RawWindowHandle, HandleError>, initHr: int, pressed: int)
    returns (r: Result<bool, DialogError>, box: Option<MessageBoxCall>)
    modifies com
    ensures com.depth == old(com.depth)
    ensures com.initCount == old(com.initCount) + (if Succeeded(initHr) then 1 else 0)
    ensures com.uninitCount == old(com.uninitCount) + (if Succeeded(initHr) then 1 else 0)
    ensures lookup.Err? ==> r == Err(Handle(lookup.error)) && box == None
    ensures lookup.Ok? && !lookup.value.Win32? ==> r == Err(Handle(NotSupported)) && box == None
    ensures lookup.Ok? && lookup.value.Win32? ==>
      box == Some(MessageBoxCall(lookup.value.hwnd, Widen(message), Widen(title), ConfirmStyle(level))) &&
      r == Ok(pressed == IDOK)
  {
    var comInitialized := com.CoInitializeEx(initHr);
    var titleWide := Widen(title);
    var messageWide := Widen(message);

    if lookup.Err? {
      if comInitialized {
        com.CoUninitialize();
      }
      return Err(Handle(lookup.error)), None;
    }
    if !lookup.value.Win32? {
      if comInitialized {
        com.CoUninitialize();
      }
      return Err(Handle(NotSupported)), None;
    }

    var hwnd := lookup.value.hwnd;
    var style := ConfirmStyle(level);
    box := Some(MessageBoxCall(hwnd, messageWide, titleWide, style));
    var res := pressed;
    if comInitialized {
      com.CoUninitialize();
    }
    r := Ok(res == IDOK);
  }
}
