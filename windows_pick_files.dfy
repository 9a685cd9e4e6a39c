/**
 * The Win32 open-file dialog (src/windows/pick_files.rs): `GetOpenFileNameW`
 * with an optional owner and a zeroed `MAX_PATH` buffer, read back up to its
 * first NUL when the dialog reports success.
 */
module WinPickFiles {

  import opened Wrappers
  import opened DialogTypes
  import opened WinWide
  import opened Win32
  import opened WinFilter

  /** The owner: the caller's Win32 window if there is one, otherwise the null `HWND`. */
  function Owner(window: Option<RawWindowHandle>): (hwnd: Hwnd)
    ensures hwnd != 0 <==> window.Some? && window.value.Win32?
    ensures hwnd != 0 ==> hwnd == window.value.hwnd
  {
    if window.Some? && window.value.Win32? then window.value.hwnd else 0
  }

  /**
   * `show`. `dialog` is what `GetOpenFileNameW` returns and writes into the
   * buffer; `ofn` is the dialog structure passed. No window, or a window of
   * another platform, is not an error: the dialog is shown unowned.
   */
  method Show(title: string, filters: seq<Filter>, window: Option<RawWindowHandle>, dialog: BufferFill)
    returns (r: Result<Option<string>, DialogError>, ofn: OpenFileName)
    requires |dialog.written| <= MAX_PATH
    ensures ofn == OpenFileName(Owner(window), Widen(FilterText(filters)), MAX_PATH, Widen(title),
                                OFN_FILEMUSTEXIST | OFN_PATHMUSTEXIST)
    ensures r.Ok?
    ensures r.value == if dialog.succeeded then Some(Unwiden(Overwrite(Zeros(MAX_PATH), dialog.written))) else None
  {
    var titleWide := Widen(title);
    var filtersWide := GetFilterUtf16(filters);

    var hwnd := if window.Some? && window.value.Win32? then window.value.hwnd else 0;

    var fileBuffer := new u16[MAX_PATH](_ => 0);
    ofn := OpenFileName(hwnd, filtersWide, fileBuffer.Length, titleWide, OFN_FILEMUSTEXIST | OFN_PATHMUSTEXIST);
    ghost var before := fileBuffer[..];
    assert before == Zeros(MAX_PATH);
    CopyPrefix(fileBuffer, dialog.written);
    var yes := dialog.succeeded;

    if yes {
      var path := Unwiden(fileBuffer[..]);
      r := Ok(Some(path));
    } else {
      r := Ok(None);
    }
  }

  /** A path the dialog writes with its NUL terminator comes back exactly. */
  lemma WrittenPathRoundTrip(path: string)
    requires '\0' !in path && |Encode(path)| < MAX_PATH
    ensures Unwiden(Overwrite(Zeros(MAX_PATH), Widen(path))) == path
  {
    var w := Widen(path);
    assert Overwrite(Zeros(MAX_PATH), w) == Encode(path) + ([0] + Zeros(MAX_PATH)[|w|..]);
    EncodeHasZero(path);
    UntilNulOfZeroFree(Encode(path), [0] + Zeros(MAX_PATH)[|w|..]);
    DecodeEncode(path);
  }
}
