/**
 * The value types shared by every backend (src/lib.rs): the dialog level,
 * the error type, the caller's window handle as the backends see it once
 * `window_handle()` has been asked for it, and the file-type filter.
 */
module DialogTypes {

  import opened Wrappers

  /** `BlockingDialogLevel`: the semantic severity of a message dialog. */
  datatype Level = Info | Warning | Error

  /** `raw_window_handle::HandleError`, the two variants the backends name. */
  datatype HandleError = NotSupported | Unavailable

  /** Failure of the external tool process to start (`std::io::Error`), kept opaque. */
  datatype IoError = IoError(kind: nat)

  /**
   * `BlockingDialogError` with the variants the backends actually construct.
   * src/lib.rs declares only `NotOnMainThread`; `Handle(..)` is built by every
   * Windows and macOS backend and `Spawn(..)` stands for the `?` conversion of
   * the zenity spawn failure in src/linux/pick_files.rs.
   */
  datatype DialogError =
    | NotOnMainThread
    | Handle(handleError: HandleError)
    | Spawn(io: IoError)

  /** A Win32 window handle is a non-zero `isize` (`NonZeroIsize`). */
  type NonZeroHwnd = h: int | h != 0 witness 1

  /** An AppKit view; `window` is what `-[NSView window]` answers (a view may have none). */
  datatype NsView = NsView(id: nat, window: Option<nat>)

  /** `RawWindowHandle`, reduced to the variants the backends distinguish. */
  datatype RawWindowHandle =
    | Win32(hwnd: NonZeroHwnd)
    | AppKit(view: NsView)
    | OtherPlatform

  /** `BlockingPickFilesDialogFilter`: a display name and its extensions, without the dot. */
  datatype Filter = Filter(name: string, extensions: seq<string>)
}
