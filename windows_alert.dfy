/** The Win32 alert (src/windows/alert.rs): one `MessageBoxW` with an OK button. */
module WinAlert {

  import opened Wrappers
  import opened DialogTypes
  import opened WinWide
  import opened Win32

  /**
   * `get_utype`: the level's icon, the OK button, topmost and brought to the
   * foreground, and no other flag.
   */
  function AlertStyle(level: Level): (style: bv32)
    ensures IconLevel(style) == Some(level)
    ensures style & MB_TYPEMASK == MB_OK
    ensures style & MB_TOPMOST == MB_TOPMOST && style & MB_SETFOREGROUND == MB_SETFOREGROUND
    ensures style & !(MB_TYPEMASK | MB_ICONMASK | MB_TOPMOST | MB_SETFOREGROUND) == 0
  {
    var icon := match level
      case Info => MB_ICONINFORMATION
      case Warning => MB_ICONWARNING
      case Error => MB_ICONERROR;
    icon | MB_OK | MB_TOPMOST | MB_SETFOREGROUND
  }

  /** Distinct levels give distinct styles. */
  lemma AlertStyleInjective(a: Level, b: Level)
    requires AlertStyle(a) == AlertStyle(b)
    ensures a == b
  {
    assert IconLevel(AlertStyle(a)) == Some(a);
  }

  /**
   * `show`: the handle only has to resolve to a Win32 window; the box itself
   * is shown without an owner, and whatever button closes it the result is
   * `Ok(())`. `lookup` is the answer of `window_handle()`; `box` is the
   * `MessageBoxW` call made, if any.
   */
  method Show(title: string, message: string, level: Level, lookup: Result<RawWindowHandle, HandleError>)
    returns (r: Result<(), DialogError>, box: Option<MessageBoxCall>)
    ensures lookup.Err? ==> r == Err(Handle(lookup.error)) && box == None
    ensures lookup.Ok? && !lookup.value.Win32? ==> r == Err(Handle(NotSupported)) && box == None
    ensures lookup.Ok? && lookup.value.Win32? ==>
      r == Ok(()) && box == Some(MessageBoxCall(0, Widen(message), Widen(title), AlertStyle(level)))
  {
    var titleWide := Widen(title);
    var messageWide := Widen(message);
    if lookup.Err? {
      return Err(Handle(lookup.error)), None;
    }
    if !lookup.value.Win32? {
      return Err(Handle(NotSupported)), None;
    }
    box := Some(MessageBoxCall(0, messageWide, titleWide, AlertStyle(level)));
    r := Ok(());
  }
}
