/**
 * The zenity file picker (src/linux/pick_files.rs): the argument list of the
 * `zenity --file-selection` process, and its standard output trimmed of
 * surrounding white space, taken whole as one path.
 */
module LinuxPickFiles {

  import opened Wrappers
  import opened DialogTypes

  /** The arguments given to `zenity`. */
  function ZenityArgs(title: string, directory: bool, multiple: bool): (args: seq<string>)
    ensures |args| >= 3 && args[..3] == ["--file-selection", "--title", title]
    ensures "--directory" in args[3..] <==> directory
    ensures "--multiple" in args[3..] <==> multiple
    ensures forall i, j :: 3 <= i < |args| && 3 <= j < |args| && args[i] == "--multiple" && args[j] == "--directory" ==> j < i
    ensures |args| == 3 + (if directory then 1 else 0) + (if multiple then 1 else 0)
  {
    var flags := (if directory then ["--directory"] else []) + (if multiple then ["--multiple"] else []);
    var args := ["--file-selection", "--title", title] + flags;
    assert args[3..] == flags;
    assert "--directory" != "--multiple" by { assert |"--directory"| != |"--multiple"|; }
    args
  }

  /** `char::is_whitespace`: the Unicode White_Space property. */
  predicate IsWhitespace(c: char)
  {
    || '\U{9}' <= c <= '\U{D}'
    || c == '\U{20}'
    || c == '\U{85}'
    || c == '\U{A0}'
    || c == '\U{1680}'
    || '\U{2000}' <= c <= '\U{200A}'
    || c == '\U{2028}'
    || c == '\U{2029}'
    || c == '\U{202F}'
    || c == '\U{205F}'
    || c == '\U{3000}'
  }

  predicate AllWhitespace(s: string)
  {
    forall k :: 0 <= k < |s| ==> IsWhitespace(s[k])
  }

  /** Neither end of `s` is white space. */
  predicate Trimmed(s: string)
  {
    s == [] || (!IsWhitespace(s[0]) && !IsWhitespace(s[|s| - 1]))
  }

  /** `s` is white space, then `r` starting at index `i`, then white space. */
  predicate SplitAround(s: string, i: int, r: string)
  {
    0 <= i && i + |r| <= |s| && s[i..i + |r|] == r &&
    AllWhitespace(s[..i]) && AllWhitespace(s[i + |r|..])
  }

  function TrimStart(s: string): (r: string)
    ensures |r| <= |s| && r == s[|s| - |r|..]
    ensures AllWhitespace(s[..|s| - |r|])
    ensures r == [] || !IsWhitespace(r[0])
  {
    if s != [] && IsWhitespace(s[0]) then TrimStart(s[1..]) else s
  }

  function TrimEnd(s: string): (r: string)
    ensures |r| <= |s| && r == s[..|r|]
    ensures AllWhitespace(s[|r|..])
    ensures r == [] || !IsWhitespace(r[|r| - 1])
  {
    if s != [] && IsWhitespace(s[|s| - 1]) then TrimEnd(s[..|s| - 1]) else s
  }

  /** `str::trim`: strip white space from both ends, and nothing else. */
  function Trim(s: string): (r: string)
    ensures Trimmed(r)
    ensures exists i :: SplitAround(s, i, r)
  {
    var t := TrimStart(s);
    var r := TrimEnd(t);
    assert r == [] || !IsWhitespace(r[0]);
    assert SplitAround(s, |s| - |t|, r) by {
      var i := |s| - |t|;
      assert s[i..i + |r|] == t[..|r|];
      assert s[i + |r|..] == t[|r|..];
    }
    r
  }

  /**
   * `Trim` is the only way to split `s` into white space, a part with
   * non-white ends, and white space: it is unique, so the two ensures of
   * `Trim` define it.
   */
  lemma TrimUnique(s: string, i: int, m: string)
    requires SplitAround(s, i, m) && Trimmed(m)
    ensures Trim(s) == m
  {
    var r := Trim(s);
    var j :| SplitAround(s, j, r);
    SplitsAgree(s, i, m, j, r);
  }

  /** Two white-space splits of `s` with non-white ends are the same split. */
  lemma SplitsAgree(s: string, i: int, m: string, j: int, r: string)
    requires SplitAround(s, i, m) && Trimmed(m)
    requires SplitAround(s, j, r) && Trimmed(r)
    ensures m == r
  {
    if m == [] && r != [] {
      WhitespaceAround(s, i);
    } else if m != [] && r == [] {
      WhitespaceAround(s, j);
    }
  }

  /** White space before and after index `i` is white space throughout. */
  lemma WhitespaceAround(s: string, i: int)
    requires 0 <= i <= |s| && AllWhitespace(s[..i]) && AllWhitespace(s[i..])
    ensures AllWhitespace(s)
  {
    forall k | 0 <= k < |s|
      ensures IsWhitespace(s[k])
    {
      if k < i {
        assert s[..i][k] == s[k];
      } else {
        assert s[i..][k - i] == s[k];
      }
    }
  }

  /** Trimming leaves nothing exactly when the output was white space only. */
  lemma TrimEmpty(s: string)
    ensures Trim(s) == [] <==> AllWhitespace(s)
  {
    var r := Trim(s);
    var i :| SplitAround(s, i, r);
    if r == [] {
      WhitespaceAround(s, i);
    } else {
      assert s[i] == r[0];
    }
  }

  /** What spawning `zenity` with some arguments yields. */
  datatype SpawnOutcome = Exited(stdout: string, status: int) | SpawnFailed(error: IoError)

  /**
   * `show`: `run` stands for `cmd.output()` on the argument list. A spawn
   * failure is the error; otherwise the result is the trimmed output, whatever
   * the exit status, and it is not split into several paths.
   */
  function Show(title: string, directory: bool, multiple: bool, run: seq<string> -> SpawnOutcome)
    : (r: Result<string, DialogError>)
    ensures var out := run(ZenityArgs(title, directory, multiple));
      && (out.SpawnFailed? ==> r == Err(Spawn(out.error)))
      && (out.Exited? ==> r.Ok? && Trimmed(r.value) && exists i :: SplitAround(out.stdout, i, r.value))
  {
    var args := ZenityArgs(title, directory, multiple);
    match run(args)
    case SpawnFailed(e) => Err(Spawn(e))
    case Exited(stdout, _) => Ok(Trim(stdout))
  }

  /**
   * The exit status is never looked at, so output that is only white space
   * gives an empty path rather than an error or "nothing chosen".
   */
  lemma BlankOutputGivesEmptyPath(title: string, directory: bool, multiple: bool,
                                  run: seq<string> -> SpawnOutcome)
    requires run(ZenityArgs(title, directory, multiple)).Exited?
    requires AllWhitespace(run(ZenityArgs(title, directory, multiple)).stdout)
    ensures Show(title, directory, multiple, run) == Ok("")
  {
    TrimEmpty(run(ZenityArgs(title, directory, multiple)).stdout);
  }

  /**
   * Two selected paths on two lines come back as one path holding both,
   * whatever the flags: the output is never split.
   */
  lemma NoSplitting(title: string, directory: bool, multiple: bool, p: string, q: string,
                    status: int, run: seq<string> -> SpawnOutcome)
    requires Trimmed(p) && Trimmed(q) && p != "" && q != ""
    requires run(ZenityArgs(title, directory, multiple)) == Exited(p + "\n" + q + "\n", status)
    ensures Show(title, directory, multiple, run) == Ok(p + "\n" + q)
  {
    var s, m := p + "\n" + q + "\n", p + "\n" + q;
    assert s[0..|m|] == m && s[..0] == [] && s[|m|..] == "\n";
    assert IsWhitespace('\n');
    assert SplitAround(s, 0, m);
    TrimUnique(s, 0, m);
  }
}
