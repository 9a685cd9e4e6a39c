/**
 * The AppKit objects the macOS backends drive, reduced to the configuration
 * they record: `NSAlert` and the open and save panels are stand-ins whose
 * setters store what they are given, so that what a backend presents can be
 * read back as a value. Constants are AppKit's.
 */
module AppKit {

  import opened Wrappers
  import opened DialogTypes

  const NSModalResponseOK: int := 1
  const NSAlertFirstButtonReturn: int := 1000
  const NSAlertSecondButtonReturn: int := 1001

  /** `NSAlertStyle`. */
  datatype NSAlertStyle = StyleWarning | StyleInformational | StyleCritical

  /**
   * `get_ns_alert_style`, written identically in src/macos/alert.rs and
   * src/macos/confirm.rs: only Info is informational, and nothing is critical.
   */
  function AlertStyleFor(level: Level): (style: NSAlertStyle)
    ensures style != StyleCritical
    ensures style == StyleInformational <==> level == Info
  {
    match level
    case Info => StyleInformational
    case Warning => StyleWarning
    case Error => StyleWarning
  }

  /** An SF Symbol asked for by name, with its accessibility description. */
  datatype Symbol = Symbol(name: string, description: string)

  /** The symbol `get_ns_alert_icon` asks for; the lookup itself may find nothing. */
  function IconSymbol(level: Level): (s: Symbol)
    ensures s.name != "" && s.description != ""
  {
    match level
    case Info => Symbol("info.circle", "Info")
    case Warning => Symbol("exclamationmark.triangle", "Warning")
    case Error => Symbol("multiply.circle", "Error")
  }

  /** Each level asks for its own symbol. */
  lemma IconSymbolInjective(a: Level, b: Level)
    requires IconSymbol(a) == IconSymbol(b)
    ensures a == b
  {
  }

  /** What an `NSAlert` has been configured with. */
  datatype AlertConfig = AlertConfig(
    messageText: string,
    informativeText: string,
    style: NSAlertStyle,
    buttons: seq<string>,
    icon: Option<Symbol>)

  /** The button a modal response code stands for, counting from the first button added. */
  function ButtonFor(buttons: seq<string>, response: int): (b: Option<string>)
    ensures b.Some? <==> NSAlertFirstButtonReturn <= response < NSAlertFirstButtonReturn + |buttons|
  {
    if NSAlertFirstButtonReturn <= response < NSAlertFirstButtonReturn + |buttons|
    then Some(buttons[response - NSAlertFirstButtonReturn])
    else None
  }

  /** Stand-in for `NSAlert`. */
  class Alert {
    var messageText: string
    var informativeText: string
    var style: NSAlertStyle
    var buttons: seq<string>
    var icon: Option<Symbol>

    function Config(): AlertConfig
      reads this
    {
      AlertConfig(messageText, informativeText, style, buttons, icon)
    }

    /** `NSAlert::new`: empty texts, the warning style, no buttons, the application icon. */
    constructor ()
      ensures Config() == AlertConfig("", "", StyleWarning, [], None)
    {
      messageText, informativeText, style, buttons, icon := "", "", StyleWarning, [], None;
    }

    method SetMessageText(text: string)
      modifies this
      ensures Config() == old(Config()).(messageText := text)
    {
      messageText := text;
    }

    method SetInformativeText(text: string)
      modifies this
      ensures Config() == old(Config()).(informativeText := text)
    {
      informativeText := text;
    }

    method SetAlertStyle(s: NSAlertStyle)
      modifies this
      ensures Config() == old(Config()).(style := s)
    {
      style := s;
    }

    /** `addButtonWithTitle`: the new button answers the next response code in order. */
    method AddButton(title: string) returns (response: int)
      modifies this
      ensures Config() == old(Config()).(buttons := old(buttons) + [title])
      ensures response == NSAlertFirstButtonReturn + |old(buttons)|
      ensures ButtonFor(buttons, response) == Some(title)
    {
      response := NSAlertFirstButtonReturn + |buttons|;
      buttons := buttons + [title];
    }

    method SetIcon(symbol: Symbol)
      modifies this
      ensures Config() == old(Config()).(icon := Some(symbol))
    {
      icon := Some(symbol);
    }
  }

  /** A uniform type identifier (`UTType`). */
  datatype UTType = UTType(identifier: string)

  /** What an `NSOpenPanel` has been configured with. */
  datatype OpenPanelConfig = OpenPanelConfig(
    title: string,
    canChooseFiles: bool,
    canChooseDirectories: bool,
    allowsMultipleSelection: bool,
    allowedContentTypes: seq<UTType>)

  /** Stand-in for `NSOpenPanel`. */
  class OpenPanel {
    var title: string
    var canChooseFiles: bool
    var canChooseDirectories: bool
    var allowsMultipleSelection: bool
    var allowedContentTypes: seq<UTType>

    function Config(): OpenPanelConfig
      reads this
    {
      OpenPanelConfig(title, canChooseFiles, canChooseDirectories, allowsMultipleSelection, allowedContentTypes)
    }

    /** `NSOpenPanel::openPanel`: files only, one at a time, any type. */
    constructor ()
      ensures Config() == OpenPanelConfig("", true, false, false, [])
    {
      title, canChooseFiles, canChooseDirectories, allowsMultipleSelection, allowedContentTypes := "", true, false, false, [];
    }

    method SetTitle(t: string)
      modifies this
      ensures Config() == old(Config()).(title := t)
    {
      title := t;
    }

    method SetCanChooseFiles(b: bool)
      modifies this
      ensures Config() == old(Config()).(canChooseFiles := b)
    {
      canChooseFiles := b;
    }

    method SetCanChooseDirectories(b: bool)
      modifies this
      ensures Config() == old(Config()).(canChooseDirectories := b)
    {
      canChooseDirectories := b;
    }

    method SetAllowsMultipleSelection(b: bool)
      modifies this
      ensures Config() == old(Config()).(allowsMultipleSelection := b)
    {
      allowsMultipleSelection := b;
    }

    method SetAllowedContentTypes(types: seq<UTType>)
      modifies this
      ensures Config() == old(Config()).(allowedContentTypes := types)
    {
      allowedContentTypes := types;
    }
  }

  /** What an `NSSavePanel` has been configured with; `nameField` is None until it is set. */
  datatype SavePanelConfig = SavePanelConfig(
    title: string,
    allowedContentTypes: seq<UTType>,
    nameField: Option<string>)

  /** Stand-in for `NSSavePanel`. */
  class SavePanel {
    var title: string
    var allowedContentTypes: seq<UTType>
    var nameField: Option<string>

    function Config(): SavePanelConfig
      reads this
    {
      SavePanelConfig(title, allowedContentTypes, nameField)
    }

    /** `NSSavePanel::savePanel`. */
    constructor ()
      ensures Config() == SavePanelConfig("", [], None)
    {
      title, allowedContentTypes, nameField := "", [], None;
    }

    method SetTitle(t: string)
      modifies this
      ensures Config() == old(Config()).(title := t)
    {
      title := t;
    }

    method SetAllowedContentTypes(types: seq<UTType>)
      modifies this
      ensures Config() == old(Config()).(allowedContentTypes := types)
    {
      allowedContentTypes := types;
    }

    method SetNameFieldStringValue(name: string)
      modifies this
      ensures Config() == old(Config()).(nameField := Some(name))
    {
      nameField := Some(name);
    }
  }

  /** How a dialog was put on screen: as a sheet on a window, or application-modal. */
  datatype Presentation = Sheet(window: nat) | AppModal

  /** An `NSURL` from a panel; `path` is what `-[NSURL path]` answers. */
  datatype Url = Url(path: Option<string>)

  /** The paths of the URLs that have one, in URL order. */
  function PathsOf(urls: seq<Url>): seq<string>
  {
    if urls == [] then []
    else (if urls[0].path.Some? then [urls[0].path.value] else []) + PathsOf(urls[1..])
  }

  /**
   * The loop over `panel.URLs()` in src/macos/pick_files.rs and
   * src/macos/pick_directory.rs, which pushes every path it finds.
   */
  method CollectPaths(urls: seq<Url>) returns (paths: seq<string>)
    ensures paths == PathsOf(urls)
  {
    paths := [];
    for i := 0 to |urls|
      invariant paths == PathsOf(urls[..i])
    {
      if urls[i].path.Some? {
        paths := paths + [urls[i].path.value];
      }
      assert urls[..i + 1] == urls[..i] + [urls[i]];
      PathsOfAppend(urls[..i], [urls[i]]);
    }
    assert urls[..|urls|] == urls;
  }

  /** Collecting from two runs of URLs keeps their order. */
  lemma {:induction false} PathsOfAppend(a: seq<Url>, b: seq<Url>)
    ensures PathsOf(a + b) == PathsOf(a) + PathsOf(b)
  {
    if a == [] {
      assert a + b == b;
    } else {
      assert (a + b)[1..] == a[1..] + b;
      PathsOfAppend(a[1..], b);
    }
  }

  /**
   * URLs without a path are skipped and nothing else is: there are at most as
   * many paths as URLs, exactly as many when every URL has a path, and then
   * the i-th path is the i-th URL's.
   */
  lemma {:induction false} PathsOfBounds(urls: seq<Url>)
    ensures |PathsOf(urls)| <= |urls|
    ensures (forall i :: 0 <= i < |urls| ==> urls[i].path.Some?) ==>
      |PathsOf(urls)| == |urls| && forall i :: 0 <= i < |urls| ==> PathsOf(urls)[i] == urls[i].path.value
  {
    if urls != [] {
      PathsOfBounds(urls[1..]);
    }
  }

  /** Every collected path is the path of one of the URLs. */
  lemma {:induction false} PathsOfFromUrls(urls: seq<Url>, k: nat)
    requires k < |PathsOf(urls)|
    ensures Url(Some(PathsOf(urls)[k])) in urls
  {
    if urls[0].path.Some? && k == 0 {
      assert urls[0] == Url(Some(PathsOf(urls)[0]));
    } else {
      var k' := if urls[0].path.Some? then k - 1 else k;
      PathsOfFromUrls(urls[1..], k');
    }
  }

  /** Only URLs without a path are skipped: every URL's path is collected. */
  lemma PathsOfContains(urls: seq<Url>, i: nat)
    requires i < |urls| && urls[i].path.Some?
    ensures urls[i].path.value in PathsOf(urls)
  {
    assert urls == urls[..i] + [urls[i]] + urls[i + 1..];
    PathsOfAppend(urls[..i] + [urls[i]], urls[i + 1..]);
    PathsOfAppend(urls[..i], [urls[i]]);
  }

  /** `Vec::pop` on the collected paths: the last one, if any. */
  function Last(paths: seq<string>): (p: Option<string>)
    ensures p.None? <==> paths == []
  {
    if paths == [] then None else Some(paths[|paths| - 1])
  }
}
