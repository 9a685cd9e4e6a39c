/**
 * The `blocking-dialog` command line (src/main.rs): options are folded into
 * a level, a title, a message and a dialog kind, the last occurrence of each
 * winning, and the chosen dialog is then shown with no parent window.
 */
module Cli {

  import opened Wrappers
  import opened DialogTypes

  /** One item from the argument tokenizer: a free value, `-x` or `--name`. */
  datatype Token = Value(text: string) | Short(letter: char) | Long(name: string)

  datatype DialogKind = Alert | Confirm

  datatype Args = Args(level: Level, title: string, message: string, kind: DialogKind)

  datatype CliError = MissingValue(option: Token) | UnexpectedArgument(arg: Token)

  datatype ParseOutcome = Parsed(args: Args) | HelpRequested | Failed(error: CliError)

  const DEFAULT_TITLE: string := "BlockingDialog"

  /** Info level, title "BlockingDialog", empty message, alert. */
  const DEFAULT_ARGS := Args(Info, DEFAULT_TITLE, "", Alert)

  /** The argument as it was typed; what `-t` takes as its value. */
  function RawText(t: Token): (s: string)
    ensures t.Value? ==> s == t.text
    ensures !t.Value? ==> |s| >= 2 && s[0] == '-'
  {
    match t
    case Value(text) => text
    case Short(c) => ['-', c]
    case Long(name) => "--" + name
  }

  predicate IsTitle(t: Token) { t == Short('t') || t == Long("title") }
  predicate IsHelp(t: Token) { t == Short('h') || t == Long("help") }

  /** The level a level flag selects; no level flag means anything else. */
  function LevelFlag(t: Token): (l: Option<Level>)
    ensures l.Some? ==> !t.Value? && !IsTitle(t) && !IsHelp(t) && KindFlag(t).None?
  {
    if t == Short('i') || t == Long("info") then Some(Info)
    else if t == Short('w') || t == Long("warning") then Some(Warning)
    else if t == Short('e') || t == Long("error") then Some(Error)
    else None
  }

  /** The dialog kind a kind flag selects; no kind flag means anything else. */
  function KindFlag(t: Token): (k: Option<DialogKind>)
    ensures k.Some? ==> !t.Value? && !IsTitle(t) && !IsHelp(t)
  {
    if t == Short('c') || t == Long("confirm") then Some(Confirm)
    else if t == Short('a') || t == Long("alert") then Some(Alert)
    else None
  }

  /** An option the parser knows. */
  predicate Recognised(t: Token)
  {
    IsTitle(t) || IsHelp(t) || LevelFlag(t).Some? || KindFlag(t).Some?
  }

  /**
   * What parsing the remaining tokens from `args` leads to. The only errors
   * are a title option with nothing after it and an option nobody knows, and
   * each names a token of the input.
   */
  function Run(tokens: seq<Token>, args: Args): (r: ParseOutcome)
    ensures r.Failed? && r.error.MissingValue? ==>
      IsTitle(r.error.option) && tokens != [] && tokens[|tokens| - 1] == r.error.option
    ensures r.Failed? && r.error.UnexpectedArgument? ==>
      !r.error.arg.Value? && !Recognised(r.error.arg) && r.error.arg in tokens
    ensures r.HelpRequested? ==> exists i :: 0 <= i < |tokens| && IsHelp(tokens[i])
    decreases |tokens|
  {
    if tokens == [] then Parsed(args)
    else
      var t := tokens[0];
      if t.Value? then Run(tokens[1..], args.(message := t.text))
      else if IsTitle(t) then
        if |tokens| == 1 then Failed(MissingValue(t))
        else Run(tokens[2..], args.(title := RawText(tokens[1])))
      else if LevelFlag(t).Some? then Run(tokens[1..], args.(level := LevelFlag(t).value))
      else if KindFlag(t).Some? then Run(tokens[1..], args.(kind := KindFlag(t).value))
      else if IsHelp(t) then HelpRequested
      else Failed(UnexpectedArgument(t))
  }

  /** The whole command line parsed from the defaults. */
  function Parse(tokens: seq<Token>): ParseOutcome
  {
    Run(tokens, DEFAULT_ARGS)
  }

  /** `parse_args`: the option loop over mutable level, title, message and kind. */
  method ParseArgs(tokens: seq<Token>) returns (r: ParseOutcome)
    ensures r == Parse(tokens)
  {
    var level, title, message, kind := Info, DEFAULT_TITLE, "", Alert;
    var i := 0;
    while i < |tokens|
      invariant 0 <= i <= |tokens|
      invariant Run(tokens[i..], Args(level, title, message, kind)) == Parse(tokens)
    {
      var arg := tokens[i];
      assert tokens[i..][1..] == tokens[i + 1..];
      i := i + 1;
      if arg.Value? {
        message := arg.text;
      } else if IsTitle(arg) {
        if i == |tokens| {
          return Failed(MissingValue(arg));
        }
        assert tokens[i - 1..][2..] == tokens[i + 1..];
        title := RawText(tokens[i]);
        i := i + 1;
      } else if LevelFlag(arg).Some? {
        level := LevelFlag(arg).value;
      } else if KindFlag(arg).Some? {
        kind := KindFlag(arg).value;
      } else if IsHelp(arg) {
        return HelpRequested;
      } else {
        return Failed(UnexpectedArgument(arg));
      }
    }
    return Parsed(Args(level, title, message, kind));
  }

  /** Parsing a prefix to completion and then the rest is parsing the whole line. */
  lemma {:induction false} RunAppend(a: seq<Token>, b: seq<Token>, args: Args)
    requires Run(a, args).Parsed?
    ensures Run(a + b, args) == Run(b, Run(a, args).args)
    decreases |a|
  {
    if a == [] {
      assert a + b == b;
    } else {
      var t := a[0];
      assert (a + b)[0] == t;
      assert (a + b)[1..] == a[1..] + b;
      if t.Value? {
        RunAppend(a[1..], b, args.(message := t.text));
      } else if IsTitle(t) {
        assert |a| >= 2;
        assert (a + b)[2..] == a[2..] + b;
        assert (a + b)[1] == a[1];
        RunAppend(a[2..], b, args.(title := RawText(a[1])));
      } else if LevelFlag(t).Some? {
        RunAppend(a[1..], b, args.(level := LevelFlag(t).value));
      } else if KindFlag(t).Some? {
        RunAppend(a[1..], b, args.(kind := KindFlag(t).value));
      }
    }
  }

  /** The last free value is the message. */
  lemma LastValueIsMessage(tokens: seq<Token>, text: string)
    requires Parse(tokens).Parsed?
    ensures Parse(tokens + [Value(text)]) == Parsed(Parse(tokens).args.(message := text))
  {
    RunAppend(tokens, [Value(text)], DEFAULT_ARGS);
  }

  /** `-t`/`--title` takes the next argument whole, even one that looks like an option. */
  lemma LastTitleWins(tokens: seq<Token>, option: Token, next: Token)
    requires IsTitle(option) && Parse(tokens).Parsed?
    ensures Parse(tokens + [option, next]) == Parsed(Parse(tokens).args.(title := RawText(next)))
  {
    RunAppend(tokens, [option, next], DEFAULT_ARGS);
  }

  /** A title option with nothing after it is an error. */
  lemma TitleWithoutValue(tokens: seq<Token>, option: Token)
    requires IsTitle(option) && Parse(tokens).Parsed?
    ensures Parse(tokens + [option]) == Failed(MissingValue(option))
  {
    RunAppend(tokens, [option], DEFAULT_ARGS);
  }

  /** The last level flag decides the level, and changes nothing else. */
  lemma LastLevelWins(tokens: seq<Token>, flag: Token)
    requires LevelFlag(flag).Some? && Parse(tokens).Parsed?
    ensures Parse(tokens + [flag]) == Parsed(Parse(tokens).args.(level := LevelFlag(flag).value))
  {
    RunAppend(tokens, [flag], DEFAULT_ARGS);
  }

  /** The last kind flag decides the dialog kind, and changes nothing else. */
  lemma LastKindWins(tokens: seq<Token>, flag: Token)
    requires KindFlag(flag).Some? && Parse(tokens).Parsed?
    ensures Parse(tokens + [flag]) == Parsed(Parse(tokens).args.(kind := KindFlag(flag).value))
  {
    RunAppend(tokens, [flag], DEFAULT_ARGS);
  }

  /** Help ends parsing: whatever follows is not looked at. */
  lemma HelpStops(tokens: seq<Token>, flag: Token, rest: seq<Token>)
    requires IsHelp(flag) && Parse(tokens).Parsed?
    ensures Parse(tokens + [flag] + rest) == HelpRequested
  {
    assert tokens + [flag] + rest == tokens + ([flag] + rest);
    RunAppend(tokens, [flag] + rest, DEFAULT_ARGS);
  }

  /** An unknown option ends parsing with an error, whatever follows. */
  lemma UnknownOptionStops(tokens: seq<Token>, t: Token, rest: seq<Token>)
    requires !t.Value? && !Recognised(t) && Parse(tokens).Parsed?
    ensures Parse(tokens + [t] + rest) == Failed(UnexpectedArgument(t))
  {
    assert tokens + [t] + rest == tokens + ([t] + rest);
    RunAppend(tokens, [t] + rest, DEFAULT_ARGS);
  }

  /** A dialog request as `main` builds it. */
  datatype Request = Request(kind: DialogKind, window: Option<RawWindowHandle>, title: string,
                             message: string, level: Level)

  /** How a run of the program ends. */
  datatype Exit =
    | UsageError(error: CliError)
    | HelpPrinted(stdout: string)
    | Finished(request: Request, stdout: string)
    | Panicked(request: Request, failure: DialogError)

  /** The part of the help text before the option list. */
  const HELP_HEAD: string :=
    "blocking-dialog - Display system dialog boxes from the command line\n\n"
    + "USAGE:\n    blocking-dialog [OPTIONS] <MESSAGE>\n\n"
    + "ARGS:\n    <MESSAGE>    The message text to display in the dialog box\n\n"
    + "OPTIONS:\n"

  /** The part of the help text after the option list. */
  const HELP_TAIL: string :=
    "\nEXAMPLES:\n"
    + "    blocking-dialog \"Hello world\"\n"
    + "    blocking-dialog -et \"An error\" \"Hello world\"\n"
    + "    blocking-dialog -ct \"A confirmation\" \"Hello world\"\n"

  /**
   * The options in the order the help lists them: short letter, long name,
   * and what the help says after `-x, --name`.
   */
  const OPTIONS: seq<(char, string, string)> := [
    ('t', "title", " <TITLE>    Set the dialog title [default: " + DEFAULT_TITLE + "]"),
    ('i', "info", "             Show an information dialog (default)"),
    ('w', "warning", "          Show a warning dialog"),
    ('e', "error", "            Show an error dialog"),
    ('a', "alert", "            Show an alert dialog (default)"),
    ('c', "confirm", "          Show a confirmation dialog"),
    ('h', "help", "             Print this help message")]

  /** How the help text spells an option: `-x, --name`. */
  function OptionSpelling(option: (char, string, string)): string
  {
    ['-', option.0] + ", --" + option.1
  }

  /** One line of the option list. */
  function OptionLine(option: (char, string, string)): string
  {
    "    " + OptionSpelling(option) + option.2 + "\n"
  }

  function OptionLines(options: seq<(char, string, string)>): string
  {
    if options == [] then "" else OptionLine(options[0]) + OptionLines(options[1..])
  }

  /** `HELP`, printed by `-h`/`--help`. */
  const HELP_TEXT: string := HELP_HEAD + OptionLines(OPTIONS) + HELP_TAIL

  /** `word` occurs in `text` at index `i`. */
  predicate OccursAt(text: string, word: string, i: int)
  {
    0 <= i && i + |word| <= |text| && text[i..i + |word|] == word
  }

  /** `word` occurs somewhere in `text`. */
  ghost predicate Mentions(text: string, word: string)
  {
    exists i :: OccursAt(text, word, i)
  }

  /** What a part mentions, the whole mentions. */
  lemma MentionsWithin(a: string, b: string, c: string, word: string)
    requires Mentions(b, word)
    ensures Mentions(a + b + c, word)
  {
    var i :| OccursAt(b, word, i);
    assert (a + b + c)[|a| + i..|a| + i + |word|] == b[i..i + |word|];
    assert OccursAt(a + b + c, word, |a| + i);
  }

  /** The option list shows every option's spelling. */
  lemma {:induction false} OptionLinesMention(options: seq<(char, string, string)>, k: nat)
    requires k < |options|
    ensures Mentions(OptionLines(options), OptionSpelling(options[k]))
    decreases k
  {
    var line, rest := OptionLine(options[0]), OptionLines(options[1..]);
    if k == 0 {
      var w := OptionSpelling(options[0]);
      assert OccursAt(w, w, 0);
      assert line + rest == "    " + w + (options[0].2 + "\n" + rest);
      MentionsWithin("    ", w, options[0].2 + "\n" + rest, w);
    } else {
      OptionLinesMention(options[1..], k - 1);
      assert line + rest == line + rest + "";
      MentionsWithin(line, rest, "", OptionSpelling(options[k]));
    }
  }

  /**
   * The help text documents what the parser does: every listed option is one
   * the parser knows, in both spellings.
   */
  lemma ListedOptionsAreRecognised(k: nat)
    requires k < |OPTIONS|
    ensures Recognised(Short(OPTIONS[k].0)) && Recognised(Long(OPTIONS[k].1))
  {
  }

  /** The help shows every option as `-x, --name`. */
  lemma HelpListsEveryOption(k: nat)
    requires k < |OPTIONS|
    ensures Mentions(HELP_TEXT, OptionSpelling(OPTIONS[k]))
  {
    OptionLinesMention(OPTIONS, k);
    MentionsWithin(HELP_HEAD, OptionLines(OPTIONS), HELP_TAIL, OptionSpelling(OPTIONS[k]));
  }

  /** The help shows the title the parser starts from as the default. */
  lemma HelpShowsDefaultTitle()
    ensures Mentions(HELP_TEXT, "[default: " + DEFAULT_ARGS.title + "]")
  {
    var w := "[default: " + DEFAULT_TITLE + "]";
    var title := OPTIONS[0];
    var before := "    " + OptionSpelling(title) + " <TITLE>    Set the dialog title ";
    assert title.2 == " <TITLE>    Set the dialog title " + w;
    assert OptionLine(title) == before + w + "\n";
    assert OccursAt(w, w, 0);
    var rest := OptionLines(OPTIONS[1..]);
    assert OptionLines(OPTIONS) == before + w + ("\n" + rest);
    MentionsWithin(before, w, "\n" + rest, w);
    MentionsWithin(HELP_HEAD, OptionLines(OPTIONS), HELP_TAIL, w);
  }

  /** Conversely, every option the parser knows is listed. */
  lemma RecognisedAreListed(t: Token)
    requires Recognised(t)
    ensures exists k :: 0 <= k < |OPTIONS| && (t == Short(OPTIONS[k].0) || t == Long(OPTIONS[k].1))
  {
    var k := if IsTitle(t) then 0
      else if t == Short('i') || t == Long("info") then 1
      else if t == Short('w') || t == Long("warning") then 2
      else if t == Short('e') || t == Long("error") then 3
      else if t == Short('a') || t == Long("alert") then 4
      else if t == Short('c') || t == Long("confirm") then 5
      else 6;
    assert t == Short(OPTIONS[k].0) || t == Long(OPTIONS[k].1);
  }

  /**
   * `main`: parse, then show the chosen dialog with no parent window.
   * `alertShown` and `confirmShown` stand for what `show` returns for each
   * kind of dialog; only the chosen one is used. A confirmation prints its
   * answer.
   */
  method RunCli(tokens: seq<Token>, alertShown: Result<(), DialogError>, confirmShown: Result<bool, DialogError>)
    returns (exit: Exit)
    ensures Parse(tokens).Failed? <==> exit.UsageError?
    ensures exit.UsageError? ==> exit.error == Parse(tokens).error
    ensures Parse(tokens).HelpRequested? <==> exit.HelpPrinted?
    ensures exit.HelpPrinted? ==> exit.stdout == HELP_TEXT + "\n"
    ensures Parse(tokens).Parsed? && Parse(tokens).args.kind == Alert ==>
      var a := Parse(tokens).args;
      && exit.request == Request(Alert, None, a.title, a.message, a.level)
      && (alertShown.Err? ==> exit == Panicked(exit.request, alertShown.error))
      && (alertShown.Ok? ==> exit == Finished(exit.request, ""))
    ensures Parse(tokens).Parsed? && Parse(tokens).args.kind == Confirm ==>
      var a := Parse(tokens).args;
      && exit.request == Request(Confirm, None, a.title, a.message, a.level)
      && (confirmShown.Err? ==> exit == Panicked(exit.request, confirmShown.error))
      && (confirmShown.Ok? ==>
            exit == Finished(exit.request, if confirmShown.value then "true\n" else "false\n"))
  {
    var parsed := ParseArgs(tokens);
    match parsed {
      case Failed(e) =>
        return UsageError(e);
      case HelpRequested =>
        return HelpPrinted(HELP_TEXT + "\n");
      case Parsed(a) =>
        var request := Request(a.kind, None, a.title, a.message, a.level);
        if a.kind == Alert {
          match alertShown {
            case Err(e) => return Panicked(request, e);
            case Ok(_) => return Finished(request, "");
          }
        } else {
          match confirmShown {
            case Err(e) => return Panicked(request, e);
            case Ok(yes) => return Finished(request, if yes then "true\n" else "false\n");
          }
        }
    }
  }
}
