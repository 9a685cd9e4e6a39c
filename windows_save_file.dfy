/**
 * The Win32 save dialog (src/windows/save_file.rs): a 4096-unit zeroed buffer,
 * pre-filled with the default file name, handed to `GetSaveFileNameW`, and read
 * back up to its first NUL when the dialog reports success.
 */
module WinSaveFile {

  import opened Wrappers
  import opened DialogTypes
  import opened WinWide
  import opened Win32
  import opened WinFilter

  /** The length of `file_buffer`, which is also `nMaxFile`. */
  const BUFFER_LEN: nat := 4096

  /** The slice copy of the default name panics unless its encoding fits the buffer. */
  predicate DefaultNameFits(defaultName: Option<string>)
  {
    defaultName.Some? ==> |Encode(defaultName.value)| <= BUFFER_LEN
  }

  /** The buffer as the dialog receives it: the default name's units, then zeros. */
  function InitialBuffer(defaultName: Option<string>): (b: seq<u16>)
    requires DefaultNameFits(defaultName)
    ensures |b| == BUFFER_LEN
  {
    match defaultName
    case None => Zeros(BUFFER_LEN)
    case Some(name) => Overwrite(Zeros(BUFFER_LEN), Encode(name))
  }

  /** The zeroed buffer and the default-name copy into it (lines 51-59). */
  method PrefillBuffer(defaultName: Option<string>) returns (buffer: array<u16>)
    requires DefaultNameFits(defaultName)
    ensures fresh(buffer)
    ensures buffer[..] == InitialBuffer(defaultName)
  {
    buffer := new u16[BUFFER_LEN](_ => 0);
    assert buffer[..] == Zeros(BUFFER_LEN);
    if defaultName.Some? {
      var defaultWide := Encode(defaultName.value);
      CopyPrefix(buffer, defaultWide);
    }
  }

  /**
   * `show`. `lookup` is what `window_handle()` answers and `dialog` what
   * `GetSaveFileNameW` returns and writes into the buffer; `ofn` is the
   * dialog structure passed, if the dialog was shown.
   */
  method Show(title: string, filters: seq<Filter>, defaultName: Option<string>,
              lookup: Result<RawWindowHandle, HandleError>, dialog: BufferFill)
    returns (r: Result<Option<string>, DialogError>, ofn: Option<OpenFileName>)
    requires DefaultNameFits(defaultName)
    requires |dialog.written| <= BUFFER_LEN
    ensures lookup.Err? ==> r == Err(Handle(lookup.error)) && ofn == None
    ensures lookup.Ok? && !lookup.value.Win32? ==> r == Err(Handle(NotSupported)) && ofn == None
    ensures lookup.Ok? && lookup.value.Win32? ==>
      ofn == Some(OpenFileName(lookup.value.hwnd, Widen(FilterText(filters)), BUFFER_LEN, Widen(title),
                               OFN_EXPLORER | OFN_OVERWRITEPROMPT)) &&
      r == Ok(if dialog.succeeded
              then Some(Unwiden(Overwrite(InitialBuffer(defaultName), dialog.written)))
              else None)
  {
    var titleWide := Widen(title);
    var filterWide := GetFilterUtf16(filters);

    if lookup.Err? {
      return Err(Handle(lookup.error)), None;
    }
    if !lookup.value.Win32? {
      return Err(Handle(NotSupported)), None;
    }
    var hwnd := lookup.value.hwnd;

    var fileBuffer := PrefillBuffer(defaultName);
    ofn := Some(OpenFileName(hwnd, filterWide, fileBuffer.Length, titleWide, OFN_EXPLORER | OFN_OVERWRITEPROMPT));
    CopyPrefix(fileBuffer, dialog.written);
    var yes := dialog.succeeded;

    if yes {
      var path := Unwiden(fileBuffer[..]);
      r := Ok(Some(path));
    } else {
      r := Ok(None);
    }
  }

  /**
   * A default name without U+0000 that fits the buffer comes back exactly
   * when the dialog leaves the buffer as it was.
   */
  lemma DefaultNameRoundTrip(name: string)
    requires '\0' !in name && |Encode(name)| <= BUFFER_LEN
    ensures Unwiden(Overwrite(InitialBuffer(Some(name)), [])) == name
  {
    var w := Encode(name);
    var b := InitialBuffer(Some(name));
    assert b == w + Zeros(BUFFER_LEN - |w|);
    EncodeHasZero(name);
    UntilNulOfZeroFree(w, Zeros(BUFFER_LEN - |w|));
    assert Overwrite(b, []) == b;
    if |w| < BUFFER_LEN {
      assert Zeros(BUFFER_LEN - |w|)[0] == 0;
    } else {
      assert Zeros(BUFFER_LEN - |w|) == [];
    }
    DecodeEncode(name);
  }

  /** Without a default name the dialog starts from an empty name. */
  lemma NoDefaultNameIsEmpty()
    ensures Unwiden(InitialBuffer(None)) == ""
  {
    assert InitialBuffer(None)[0] == 0;
  }
}
