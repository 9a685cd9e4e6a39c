# blocking-dialog in Dafny

A model of `blocking-dialog`, a Rust crate and command-line tool that shows
native modal dialogs: alerts, OK/Cancel confirmations, file pickers,
directory pickers and save-file pickers. Each platform backend is modelled
with the logic it runs around the native call:

- **Windows** (`WinWide`, `WinFilter`, `Win32`, `WinAlert`, `WinConfirm`,
  `WinSaveFile`, `WinPickFiles`, `WinPickDirectory`):
  - `widen` is modelled as UTF-16 encoding plus a NUL terminator (the
    encoding of section 2.1 of RFC 2781). The way paths are read back is a
    scan up to the first NUL followed by lossy UTF-16 decoding. An unpaired
    surrogate becomes U+FFFD.
  - The `lpstrFilter` string is built from the filter list. A reader of the
    NUL-separated pairs is given beside it.
  - The `MB_*`, `OFN_*` and `BIF_*` flag words.
  - The balanced `CoInitializeEx`/`CoUninitialize` pairing, on a
    `ComApartment` class.
  - The allocation and freeing of the PIDL that `SHBrowseForFolderW`
    returns, on a `ShellMemory` class.
  - The save-file buffer of 4096 UTF-16 units, prefilled in place with the
    default name.
- **macOS** (`AppKit`, `MacFilter`, `MacAlert`, `MacConfirm`, `MacPickFiles`,
  `MacPickDirectory`, `MacSaveFile`):
  - `NSAlert`, `NSOpenPanel` and `NSSavePanel` are classes whose setters
    record the configuration a dialog is shown with.
  - The filter is resolved to `UTType`s, and unknown extensions are dropped.
  - The URL-to-path collection loop.
  - The mapping of the modal response to the result.
- **Linux** (`LinuxPickFiles`): the `zenity --file-selection` argument list,
  and `str::trim` with the Unicode White_Space property.
- **CLI** (`Cli`):
  - `parse_args` folds the options into level, title, message and dialog
    kind. It is a loop method proved against a recursive definition `Run`.
  - `main` shows the chosen dialog with no parent window and prints a
    confirmation's answer.

Every native call is a parameter standing for what it returned:
- the raw window handle lookup;
- whether the code runs on the main thread;
- an HRESULT;
- the units a dialog wrote into its buffer and whether it reported success;
- the PIDL;
- the modal response;
- the URLs;
- whether a system symbol image exists;
- the extension-to-`UTType` registry;
- what the zenity process printed.

## Model

| member | source | states |
|---|---|---|
| WinWide.Widen | src/windows/mod.rs:7-12 | The result is the UTF-16 encoding followed by one 0 unit. Its length is the character count plus one per supplementary character plus one. Scanning to the first NUL gives back the encoding exactly when the text holds no NUL. |
| WinWide.EncodeChar | src/windows/mod.rs:9 | A character takes two units exactly when it is supplementary. Its units hold a 0 only for U+0000. |
| WinWide.Encode | src/windows/mod.rs:8-9 | `encode_utf16`, character by character: the encoding is empty exactly for the empty string. Its exact length is `EncodeLength`. |
| WinWide.UntilNul | src/windows/save_file.rs:77-78 | The result is the longest NUL-free prefix of the buffer. It is followed by a 0 or by the end of the buffer. |
| WinWide.DecodeLossy | src/windows/save_file.rs:78 | Lossy UTF-16 decoding never produces more characters than there were units. |
| WinWide.Combine | src/windows/save_file.rs:78 | A surrogate pair decodes to a supplementary character. |
| WinWide.Unwiden | src/windows/pick_files.rs:66 | Reading a buffer back gives at most one character per unit. A buffer starting with NUL reads back empty. `WidenRoundTrip` is its inverse property. |
| WinWide.EncodeAppend | src/windows/mod.rs:7-12 | Encoding distributes over concatenation. |
| WinWide.EncodeLength | src/windows/mod.rs:7-12 | The encoded length is the character count plus the supplementary count. |
| WinWide.EncodeHasZero | src/windows/mod.rs:7-12 | The encoding contains a 0 unit exactly when the text contains U+0000. |
| WinWide.UntilNulOfZeroFree | src/windows/save_file.rs:77 | The NUL scan passes over a NUL-free prefix unchanged. |
| WinWide.WidenScan | src/windows/mod.rs:7-12 | Scanning a widened string stops at its terminator exactly when the text is NUL-free. |
| WinWide.DecodeEncodeChar | src/windows/save_file.rs:78 | Decoding one character's units gives that character back, whatever follows. |
| WinWide.DecodeEncode | src/windows/save_file.rs:78 | Lossy decoding inverts encoding for every string. |
| WinWide.WidenRoundTrip | src/windows/mod.rs:7-12 | Reading a widened NUL-free string back gives the string itself. |
| WinFilter.GetFilterUtf16 | src/windows/save_file.rs:14-33 | The loop's result is the widened text of the name/pattern pairs, each ended by a NUL. Patterns are `*.ext` joined by `;`. |
| WinFilter.GlobList | src/windows/save_file.rs:21-26 | The joined patterns are empty exactly when there are no extensions. Otherwise they start with `*.` and the first extension. |
| WinFilter.FilterTextAppend | src/windows/save_file.rs:17-30 | The filter text of a concatenated list is the concatenation of the texts. |
| WinFilter.GlobListNulFree | src/windows/save_file.rs:21-26 | NUL-free extensions give a NUL-free pattern list. |
| WinFilter.EncodeEntry | src/windows/save_file.rs:18-29 | One entry encodes as its name, a 0, its patterns and a 0. |
| WinFilter.EncodeFields | src/windows/save_file.rs:18-29 | Two fields, each closed by a NUL, encode field by field with a 0 unit after each. |
| WinFilter.NoExtensionsEntry | src/windows/save_file.rs:21-29 | An entry without extensions encodes as its name followed by two 0 units. |
| WinFilter.ZeroCountAppend | src/windows/save_file.rs:17-30 | The number of 0 units adds up over concatenation. |
| WinFilter.ZeroCountOfZeroFree | src/windows/save_file.rs:17-30 | A NUL-free sequence holds no 0 units. |
| WinFilter.FilterTextZeros | src/windows/save_file.rs:17-30 | With NUL-free names and extensions, the encoded filter text holds exactly two 0 units per entry. |
| WinFilter.FilterZeros | src/windows/save_file.rs:14-33 | The widened filter holds 2n+1 zeros for n entries. A non-empty list ends in a double NUL, as `lpstrFilter` requires. |
| WinFilter.FilterTextEndsInNul | src/windows/save_file.rs:29 | A non-empty filter text ends in a NUL. |
| WinFilter.ReadFilterListStep | src/windows/save_file.rs:18-29 | The pair reader consumes one description and pattern and then continues. |
| WinFilter.WidenFilterText | src/windows/save_file.rs:14-33 | The widened text of a non-empty list is its encoding plus the terminator. |
| WinFilter.ReadFilterListRoundTrip | src/windows/save_file.rs:14-33 | For named, NUL-free filters, reading the widened list as Windows does gives back every (name, patterns) pair in order. |
| Win32.Zeros | src/windows/pick_files.rs:48 | The buffer has the requested length and is all 0. |
| Win32.Overwrite | src/windows/save_file.rs:58 | Writing a prefix keeps the buffer length. |
| Win32.CopyPrefix | src/windows/save_file.rs:58 | The array afterwards holds the source units, followed by its old contents past them. |
| Win32.Succeeded | src/windows/confirm.rs:25 | `is_ok` on an HRESULT. S_OK and S_FALSE both succeed, so both must be balanced by `CoUninitialize`. RPC_E_CHANGED_MODE fails. Success is exactly a non-negative value. |
| Win32.ComApartment.constructor | src/windows/confirm.rs:25 | A thread starts at the given apartment depth, with no initialisation or uninitialisation counted yet. |
| Win32.ShellMemory.constructor | src/windows/pick_directory.rs:49 | The allocator starts with nothing live and nothing freed. |
| Win32.ComApartment.CoInitializeEx | src/windows/confirm.rs:25 | Initialisation counts as done exactly when the HRESULT is not negative. Only then is the depth raised. |
| Win32.ComApartment.CoUninitialize | src/windows/confirm.rs:33-34 | May be called only inside an initialised apartment. Lowers the depth by one. |
| Win32.ShellMemory.BrowseForFolder | src/windows/pick_directory.rs:49 | A non-null PIDL becomes a live allocation. |
| Win32.ShellMemory.GetPathFromIdList | src/windows/pick_directory.rs:59 | Requires a live PIDL. The path buffer receives what the shell wrote. |
| Win32.ShellMemory.CoTaskMemFree | src/windows/pick_directory.rs:62 | Requires a live PIDL, so there is no double free. The PIDL leaves the live set and is recorded as freed. |
| WinAlert.AlertStyle | src/windows/alert.rs:15-23 | The style decodes to the level's icon and the MB_OK button set. TOPMOST and SETFOREGROUND are set, and no other bit is. |
| WinAlert.AlertStyleInjective | src/windows/alert.rs:15-23 | Different levels give different styles. |
| WinAlert.Show | src/windows/alert.rs:25-50 | A failed handle lookup or a non-Win32 handle is an error and shows nothing. Otherwise the widened message and title are shown unowned with `AlertStyle`, and the result is Ok. |
| WinConfirm.ConfirmStyle | src/windows/confirm.rs:15-21 | The style decodes to the level's icon and the OK/Cancel buttons, with no other bit set. |
| WinConfirm.Show | src/windows/confirm.rs:23-67 | COM is uninitialised on every path exactly when it was initialised, so the depth is restored. Handle errors show nothing. Otherwise the box is owned by the window, and the answer is true exactly when IDOK was returned. |
| WinSaveFile.InitialBuffer | src/windows/save_file.rs:51-59 | The buffer holds 4096 units. |
| WinSaveFile.PrefillBuffer | src/windows/save_file.rs:51-59 | A fresh array of 4096 zeros is prefilled in place with the encoded default name. |
| WinSaveFile.Show | src/windows/save_file.rs:35-84 | Handle errors show nothing. Otherwise the dialog gets the window, the widened filter, 4096, the widened title and EXPLORER\|OVERWRITEPROMPT. On success the result is the buffer read up to its first NUL. On cancel it is None. |
| WinSaveFile.DefaultNameRoundTrip | src/windows/save_file.rs:51-79 | A NUL-free default name that fits, left untouched by the dialog, is returned unchanged. |
| WinSaveFile.NoDefaultNameIsEmpty | src/windows/save_file.rs:51-79 | Without a default name, an untouched buffer reads back as the empty path. |
| WinPickFiles.Owner | src/windows/pick_files.rs:40-46 | The owner is non-null exactly when a Win32 window was given, and then it is that window. |
| WinPickFiles.Show | src/windows/pick_files.rs:35-72 | The dialog gets the owner, the filter, MAX_PATH (260), the title and FILEMUSTEXIST\|PATHMUSTEXIST. The result is always Ok: the written buffer read back on success, None on cancel. |
| WinPickFiles.WrittenPathRoundTrip | src/windows/pick_files.rs:48-67 | A NUL-free path shorter than 260 units written by the dialog is returned as is. |
| WinPickDirectory.Show | src/windows/pick_directory.rs:17-75 | COM init and uninit are balanced on every path. A non-null PIDL is freed exactly once and the live set is unchanged. Handle errors show nothing. The result is the extracted path when the browse and the extraction both succeed, otherwise None. |
| AppKit.AlertStyleFor | src/macos/alert.rs:10-16 | The style is never Critical. It is Informational exactly for Info, so Error shares Warning's style. |
| AppKit.IconSymbol | src/macos/alert.rs:18-35 | Each level asks for a named symbol with a non-empty accessibility description. |
| AppKit.IconSymbolInjective | src/macos/alert.rs:18-35 | The three levels ask for three different symbols. |
| AppKit.Alert.constructor | src/macos/alert.rs:46 | `NSAlert::new` starts with empty texts, the Warning style, no buttons and no icon. |
| AppKit.OpenPanel.constructor | src/macos/pick_files.rs:35 | `NSOpenPanel::openPanel` starts with no title, choosing files but not directories, single selection, and no type restriction. |
| AppKit.SavePanel.constructor | src/macos/save_file.rs:35 | `NSSavePanel::savePanel` starts with no title, no type restriction and no name. |
| AppKit.ButtonFor | src/macos/confirm.rs:54-83 | A response names a button exactly when it is in 1000 .. 1000+count-1. |
| AppKit.Alert.AddButton | src/macos/confirm.rs:54-55 | The button is appended. Its response code is 1000 plus its position, and that code maps back to it. |
| AppKit.Alert.SetMessageText | src/macos/alert.rs:47 | Sets only the message text. |
| AppKit.Alert.SetInformativeText | src/macos/alert.rs:48 | Sets only the informative text. |
| AppKit.Alert.SetAlertStyle | src/macos/alert.rs:49 | Sets only the style. |
| AppKit.Alert.SetIcon | src/macos/alert.rs:51-53 | Sets only the icon. |
| AppKit.OpenPanel.SetTitle | src/macos/pick_files.rs:36 | Sets only the title. |
| AppKit.OpenPanel.SetCanChooseFiles | src/macos/pick_files.rs:37 | Sets only the file flag. |
| AppKit.OpenPanel.SetCanChooseDirectories | src/macos/pick_files.rs:38 | Sets only the directory flag. |
| AppKit.OpenPanel.SetAllowsMultipleSelection | src/macos/pick_files.rs:39 | Sets only the multiple-selection flag. |
| AppKit.OpenPanel.SetAllowedContentTypes | src/macos/pick_files.rs:40 | Sets only the content types. |
| AppKit.SavePanel.SetTitle | src/macos/save_file.rs:36 | Sets only the title. |
| AppKit.SavePanel.SetAllowedContentTypes | src/macos/save_file.rs:37 | Sets only the content types. |
| AppKit.SavePanel.SetNameFieldStringValue | src/macos/save_file.rs:39-42 | Sets only the name field. |
| AppKit.CollectPaths | src/macos/pick_files.rs:62-71 | The loop keeps the paths of the URLs that have one, in order. |
| AppKit.PathsOfAppend | src/macos/pick_files.rs:65-70 | Path collection distributes over concatenation. |
| AppKit.PathsOfBounds | src/macos/pick_files.rs:65-70 | At most one path per URL, and exactly one each when every URL has a path. |
| AppKit.PathsOfFromUrls | src/macos/pick_files.rs:65-70 | Every collected path comes from one of the URLs. |
| AppKit.PathsOfContains | src/macos/pick_files.rs:65-70 | Every URL that has a path contributes it, so only pathless URLs are skipped. |
| AppKit.Last | src/macos/pick_directory.rs:56 | `pop` gives nothing exactly on an empty list. |
| MacFilter.GetFilter | src/macos/pick_files.rs:13-27 | The nested loops give the registry's type for each extension of each filter, in order, skipping unknown ones. |
| MacFilter.AllExtensionsAppend | src/macos/pick_files.rs:16-17 | The extension list distributes over concatenated filters. |
| MacFilter.ResolveAppend | src/macos/pick_files.rs:17-22 | Resolution distributes over concatenation. |
| MacFilter.ResolveBounds | src/macos/pick_files.rs:19-22 | At most one type per extension, and exactly one each when all are known. |
| MacFilter.ResolveFromExtensions | src/macos/pick_files.rs:19-22 | Every resolved type is the registry's type for one of the extensions. |
| MacAlert.Show | src/macos/alert.rs:37-69 | Off the main thread the result is NotOnMainThread and nothing is shown. Otherwise the alert is shown with the title, message, style, icon and no buttons. It is a sheet on an AppKit window, else app-modal, and the result is Ok. |
| MacConfirm.Show | src/macos/confirm.rs:41-85 | Main-thread and handle errors show nothing. Otherwise the alert has the buttons Cancel then OK and is a sheet on the view's window. The answer is true exactly when the response names the OK button. |
| MacPickFiles.Show | src/macos/pick_files.rs:29-75 | Main-thread and handle errors show nothing. Otherwise the panel is configured (title, files only, multiple flag, resolved filter). The result is the URLs' paths on OK, and empty otherwise. |
| MacPickDirectory.Show | src/macos/pick_directory.rs:12-58 | Main-thread and handle errors show nothing. A view without a window is Unavailable. Otherwise a directories-only, single-selection panel is shown, and the result is the last path on OK, else None. |
| MacPickDirectory.LastCollectedPath | src/macos/pick_directory.rs:45-56 | A path is returned exactly when some URL has a path. When the last URL has one, it is returned. |
| MacSaveFile.Show | src/macos/save_file.rs:29-74 | Main-thread and handle errors show nothing. Otherwise the panel has the title, the resolved filter and the default name. A path is returned exactly when the response is OK and the URL has a path. |
| LinuxPickFiles.ZenityArgs | src/linux/pick_files.rs:10-23 | The arguments start `--file-selection --title <title>`. `--directory` is present exactly when asked for, and so is `--multiple`. `--multiple` comes after `--directory`, and nothing else is added. |
| LinuxPickFiles.TrimStart | src/linux/pick_files.rs:27 | The result is a suffix. What is dropped is white space, and the result starts with non-white space or is empty. |
| LinuxPickFiles.TrimEnd | src/linux/pick_files.rs:27 | The result is a prefix. What is dropped is white space, and the result ends with non-white space or is empty. |
| LinuxPickFiles.Trim | src/linux/pick_files.rs:27 | The result has non-white ends. It sits in the input between two white-space runs. |
| LinuxPickFiles.TrimUnique | src/linux/pick_files.rs:27 | Any split of the input into white space, a part with non-white ends, and white space has `Trim` as its middle. |
| LinuxPickFiles.SplitsAgree | src/linux/pick_files.rs:27 | Two such splits have the same middle. |
| LinuxPickFiles.WhitespaceAround | src/linux/pick_files.rs:27 | White space on both sides of an index is white space throughout. |
| LinuxPickFiles.TrimEmpty | src/linux/pick_files.rs:27-28 | The trimmed output is empty exactly when the output is all white space. |
| LinuxPickFiles.Show | src/linux/pick_files.rs:8-30 | A spawn failure is the error. Otherwise the result is Ok with the output trimmed, whatever the exit status. |
| LinuxPickFiles.BlankOutputGivesEmptyPath | src/linux/pick_files.rs:25-28 | Blank output, including a cancelled dialog's, gives an empty path rather than an error. |
| LinuxPickFiles.NoSplitting | src/linux/pick_files.rs:25-28 | For any flags and exit status, and any two non-empty paths without surrounding white space, output of the two paths on two lines comes back as one path: both joined by the newline. |
| Cli.RawText | src/main.rs:62 | A value is its own text, and an option reads back with its leading dash. |
| Cli.LevelFlag | src/main.rs:64-72 | Only `-i`/`-w`/`-e` and their long forms select a level. A level flag is neither a value, nor the title or help option, nor a kind flag. |
| Cli.KindFlag | src/main.rs:73-78 | Only `-c`/`-a` and their long forms select a kind. A kind flag is neither a value nor the title or help option. |
| Cli.Run | src/main.rs:56-85 | The fold over the arguments fails only in two ways: a title option that is the last argument, or an option it does not know that occurs in the input. Help is requested only when a help option occurs. |
| Cli.ParseArgs | src/main.rs:47-93 | The loop over mutable level, title, message and kind gives the same outcome as the recursive definition from the defaults. |
| Cli.RunAppend | src/main.rs:56-85 | Parsing a prefix to completion and then the rest is parsing the whole line. |
| Cli.LastValueIsMessage | src/main.rs:58-60 | A later free value replaces the message and nothing else. |
| Cli.LastTitleWins | src/main.rs:61-63 | `-t`/`--title` takes the next argument whole, even one that looks like an option, and replaces the title. |
| Cli.TitleWithoutValue | src/main.rs:61-63 | A title option at the end is a missing-value error. |
| Cli.LastLevelWins | src/main.rs:64-72 | The last of `-i`/`-w`/`-e` decides the level and changes nothing else. |
| Cli.LastKindWins | src/main.rs:73-78 | The last of `-c`/`-a` decides the dialog kind and changes nothing else. |
| Cli.HelpStops | src/main.rs:79-82 | `-h`/`--help` ends parsing, whatever follows. |
| Cli.UnknownOptionStops | src/main.rs:83 | An unknown option is an error, whatever follows. |
| Cli.ListedOptionsAreRecognised | src/main.rs:17-24 | Every option the help lists is one the parser knows, in both spellings. |
| Cli.RecognisedAreListed | src/main.rs:17-24 | Every option the parser knows is listed in the help. |
| Cli.OptionLinesMention | src/main.rs:17-24 | The option list shows every option as `-x, --name`. |
| Cli.HelpListsEveryOption | src/main.rs:8-30 | The help text shows every option as `-x, --name`. |
| Cli.HelpShowsDefaultTitle | src/main.rs:18 | The help gives as default title the title the parser starts from. |
| Cli.RunCli | src/main.rs:96-126 | A parse error ends the run with that error. Help prints the help text. Otherwise the chosen dialog is requested with no window, and only that dialog's result is used. A show error panics. A confirmation prints `true` or `false` with a newline. A shown alert prints nothing. |

## Left out

- The native calls themselves are not modelled: `MessageBoxW`, `GetOpenFileNameW`, `GetSaveFileNameW`, `SHBrowseForFolderW`, `SHGetPathFromIDListW`, the AppKit run loop, `runModal`, `beginSheetModalForWindow` and `stopModalWithCode`. Their results are parameters.
- `NSImage::imageWithSystemSymbolName` is a parameter saying whether the symbol exists.
- `UTType::typeWithFilenameExtension` is a registry map.
- `MainThreadMarker::new` is a boolean.
- Reference counting (`Retained`, `retain_autoreleased`, `copy` of the handler block) and memory ownership apart from the PIDL are not modelled.
- The `setTintProminence` call on the OK button is not modelled, because it does not affect the result.
- The Linux alert, confirm, directory and save backends (src/linux/alert.rs, confirm.rs, pick_directory.rs, save_file.rs) and the desktop probe in src/linux/mod.rs are not part of this model.
- The crate-level types in src/lib.rs are used only as the data model. The error enum there declares only `NotOnMainThread`, yet the backends also return `Handle(..)` and convert I/O errors. The model follows the backends with `Handle` and `Spawn` variants.
- LinuxPickFiles.Show: the process output is taken as a string. `String::from_utf8_lossy` is not modelled, so invalid UTF-8 in zenity's output is outside the model.
- Cli.ParseArgs: argument tokenization is taken as given. Clustered short options (`-et`), `--title=value` and a value attached to `-t` are split by the tokenizer and not modelled. The value of `-t` is the next argument whole. Non-UTF-8 arguments (the `string()?` failures) cannot occur, because Dafny strings are always valid.
- Cli.RunCli: exit codes and the wording of error messages are not modelled. Only the outcome kind and standard output are.
- WinSaveFile.Show requires the encoded default name to fit in 4096 units. A longer name makes the slice copy at src/windows/save_file.rs:58 panic.
- WinSaveFile.Show does not model what Windows does with a buffer that a 4096-unit name leaves without a terminator.
- MacAlert.Show requires that an AppKit view has a window: src/macos/alert.rs:60 unwraps it.
- MacConfirm.Show has the same requirement, from src/macos/confirm.rs:78.
- MacPickFiles.Show has the same requirement, from src/macos/pick_files.rs:57.
- MacSaveFile.Show has the same requirement, from src/macos/save_file.rs:59.
- MacPickDirectory.Show has no such requirement: src/macos/pick_directory.rs:38-40 reports an Unavailable error instead.
- WinPickFiles.Show compiles only in intent: src/windows/pick_files.rs uses `filters`, `filters_wide`, `widen` and `unwiden` without defining or importing them, and builds an unused `message_wide`. The model uses the filter builder and NUL-scan reading of save_file.rs.
- `unwiden` is not defined in src/windows/mod.rs. It is modelled as the scan-and-decode of src/windows/save_file.rs:77-78.
- Several backends call `window_handle()` on an `Option` field. The lookup is modelled as its outcome: a handle or a handle error.
- WinFilter.ReadFilterListRoundTrip holds only for filters with non-empty names. An empty name makes Windows stop reading the list at that entry.
- A Windows confirm box is owned by the window. The Windows alert box is shown unowned (`None`), even though a Win32 handle is required.
- On Linux, an empty or cancelled selection yields an empty path, not "no selection": src/linux/pick_files.rs:25-28 never checks the exit status. The model follows the code.
- LinuxPickFiles.Show: `--multiple` output is not split into several paths. The model follows the code.
