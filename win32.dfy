/**
 * The part of the Win32 API the Windows backends rely on, as seen from the
 * calling thread: message-box style flags and result codes, the COM apartment
 * the shell dialogs need, the shell allocator that hands out item-identifier
 * lists (PIDLs), and the fixed wide-character buffers the common dialogs fill.
 * What a native call answers is a parameter; what it changes is state here.
 */
module Win32 {

  import opened Wrappers
  import opened DialogTypes
  import opened WinWide

  // MESSAGEBOX_STYLE flags (WinUser.h).
  const MB_OK: bv32 := 0x0
  const MB_OKCANCEL: bv32 := 0x1
  const MB_ICONERROR: bv32 := 0x10
  const MB_ICONWARNING: bv32 := 0x30
  const MB_ICONINFORMATION: bv32 := 0x40
  const MB_SETFOREGROUND: bv32 := 0x1_0000
  const MB_TOPMOST: bv32 := 0x4_0000
  const MB_TYPEMASK: bv32 := 0xF
  const MB_ICONMASK: bv32 := 0xF0

  /** The MESSAGEBOX_RESULT of the OK button. */
  const IDOK: int := 1

  // OPENFILENAMEW flags (CommDlg.h).
  const OFN_OVERWRITEPROMPT: bv32 := 0x2
  const OFN_PATHMUSTEXIST: bv32 := 0x800
  const OFN_FILEMUSTEXIST: bv32 := 0x1000
  const OFN_EXPLORER: bv32 := 0x8_0000

  // BROWSEINFOW flags (ShlObj.h).
  const BIF_RETURNONLYFSDIRS: bv32 := 0x1
  const BIF_NEWDIALOGSTYLE: bv32 := 0x40

  /** `MAX_PATH`, the capacity of the path buffers. */
  const MAX_PATH: nat := 260

  /** An `HWND`; 0 is the null handle, meaning "no owner". */
  type Hwnd = int

  /** The level a message-box style announces through its icon bits, if any. */
  function IconLevel(style: bv32): Option<Level>
  {
    var icon := style & MB_ICONMASK;
    if icon == MB_ICONINFORMATION then Some(Info)
    else if icon == MB_ICONWARNING then Some(Warning)
    else if icon == MB_ICONERROR then Some(Error)
    else None
  }

  /** The arguments of one `MessageBoxW` call. */
  datatype MessageBoxCall = MessageBoxCall(owner: Hwnd, text: seq<u16>, caption: seq<u16>, style: bv32)

  /** The fields of `OPENFILENAMEW` that the backends set. */
  datatype OpenFileName = OpenFileName(owner: Hwnd, filter: seq<u16>, maxFile: nat, title: seq<u16>, flags: bv32)

  /** The fields of `BROWSEINFOW` that the directory picker sets. */
  datatype BrowseInfo = BrowseInfo(owner: Hwnd, title: seq<u16>, flags: bv32)

  /**
   * What a native call that fills a caller's buffer did: whether it reports
   * success, and the units it wrote from the start of the buffer.
   */
  datatype BufferFill = BufferFill(succeeded: bool, written: seq<u16>)

  // HRESULT values `CoInitializeEx` answers with (WinError.h), as signed 32-bit numbers.
  const S_OK: int := 0
  const S_FALSE: int := 1
  const RPC_E_CHANGED_MODE: int := -0x7FFE_FEFA

  /**
   * `SUCCEEDED(hr)`, which is what `HRESULT::is_ok` tests. S_FALSE ("already
   * initialised on this thread") is a success too, and must be balanced by
   * `CoUninitialize` like S_OK; a thread already in another apartment mode
   * fails and must not be.
   */
  function Succeeded(hr: int): (ok: bool)
    ensures hr == S_OK || hr == S_FALSE ==> ok
    ensures hr == RPC_E_CHANGED_MODE ==> !ok
    ensures ok <==> hr >= 0
  {
    hr >= 0
  }

  /** A buffer of `n` zero units. */
  function Zeros(n: nat): (z: seq<u16>)
    ensures |z| == n
    ensures forall k :: 0 <= k < n ==> z[k] == 0
  {
    seq(n, _ => 0)
  }

  /** A buffer after a write of `written` at its start. */
  function Overwrite(buffer: seq<u16>, written: seq<u16>): (b: seq<u16>)
    requires |written| <= |buffer|
    ensures |b| == |buffer|
  {
    written + buffer[|written|..]
  }

  /**
   * `copy_from_slice` into the start of a buffer, and equally the native
   * dialogs writing their answer there.
   */
  method CopyPrefix(buffer: array<u16>, src: seq<u16>)
    requires |src| <= buffer.Length
    modifies buffer
    ensures buffer[..] == Overwrite(old(buffer[..]), src)
  {
    for i := 0 to |src|
      invariant buffer[..i] == src[..i]
      invariant buffer[i..] == old(buffer[..])[i..]
    {
      buffer[i] := src[i];
      assert buffer[..i + 1] == buffer[..i] + [buffer[i]];
    }
  }

  /**
   * The calling thread's COM apartment. `depth` counts the successful
   * `CoInitializeEx` calls not yet undone; the ghost counters record every
   * initialisation and every `CoUninitialize` made through this object.
   */
  class ComApartment {
    var depth: nat
    ghost var initCount: nat
    ghost var uninitCount: nat

    constructor (depth: nat)
      ensures this.depth == depth && initCount == 0 && uninitCount == 0
    {
      this.depth := depth;
      initCount, uninitCount := 0, 0;
    }

    /** `CoInitializeEx`, answering `hr`; `S_FALSE` (already initialised) also counts and must be undone. */
    method CoInitializeEx(hr: int) returns (ok: bool)
      modifies this
      ensures ok == Succeeded(hr)
      ensures depth == old(depth) + (if ok then 1 else 0)
      ensures initCount == old(initCount) + (if ok then 1 else 0)
      ensures uninitCount == old(uninitCount)
    {
      ok := Succeeded(hr);
      if ok {
        depth := depth + 1;
        initCount := initCount + 1;
      }
    }

    /** `CoUninitialize`: only legal to balance an initialisation that succeeded. */
    method CoUninitialize()
      requires depth > 0
      modifies this
      ensures depth == old(depth) - 1
      ensures uninitCount == old(uninitCount) + 1
      ensures initCount == old(initCount)
    {
      depth := depth - 1;
      uninitCount := uninitCount + 1;
    }
  }

  /**
   * The shell's task allocator as far as PIDLs go: `live` holds the PIDLs
   * handed out and not yet freed; `freed` records every `CoTaskMemFree`.
   */
  class ShellMemory {
    var live: set<nat>
    ghost var freed: multiset<nat>

    constructor ()
      ensures live == {} && freed == multiset{}
    {
      live := {};
      freed := multiset{};
    }

    /** `SHBrowseForFolderW`: 0 is the null PIDL (cancelled), anything else a fresh allocation. */
    method BrowseForFolder(info: BrowseInfo, returned: nat) returns (pidl: nat)
      requires returned == 0 || returned !in live
      modifies this
      ensures pidl == returned
      ensures live == old(live) + (if pidl == 0 then {} else {pidl})
      ensures freed == old(freed)
    {
      pidl := returned;
      if pidl != 0 {
        live := live + {pidl};
      }
    }

    /** `SHGetPathFromIDListW`: reads a live PIDL and writes the path into `buffer`. */
    method GetPathFromIdList(pidl: nat, buffer: array<u16>, fill: BufferFill) returns (success: bool)
      requires pidl in live
      requires |fill.written| <= buffer.Length
      modifies buffer
      ensures success == fill.succeeded
      ensures buffer[..] == Overwrite(old(buffer[..]), fill.written)
    {
      CopyPrefix(buffer, fill.written);
      success := fill.succeeded;
    }

    /** `CoTaskMemFree` of a PIDL: freeing anything not live (twice, or never allocated) is refused. */
    method CoTaskMemFree(pidl: nat)
      requires pidl in live
      modifies this
      ensures live == old(live) - {pidl}
      ensures freed == old(freed) + multiset{pidl}
    {
      live := live - {pidl};
      freed := freed + multiset{pidl};
    }
  }
}
