/**
 * The filter list of the Win32 common file dialogs (`get_filter_utf16`, written
 * out identically in src/windows/save_file.rs and src/windows/pick_files.rs):
 * for every filter, its name, a NUL, its extensions as `*.ext` joined by `;`,
 * and a NUL; the whole string is then widened, which appends the final NUL.
 */
module WinFilter {

  import opened DialogTypes
  import opened WinWide

  /** `format!("*.{ext}")`. */
  function Glob(ext: string): string
  {
    "*." + ext
  }

  /** The extensions as globs joined by `;`; an empty list joins to the empty string. */
  function GlobList(exts: seq<string>): (g: string)
    ensures g == "" <==> exts == []
    ensures exts != [] ==> Glob(exts[0]) <= g
  {
    if exts == [] then ""
    else if |exts| == 1 then Glob(exts[0])
    else Glob(exts[0]) + ";" + GlobList(exts[1..])
  }

  /** What the loop appends for one filter. */
  function EntryText(f: Filter): string
  {
    f.name + "\0" + GlobList(f.extensions) + "\0"
  }

  /** The string the loop builds, before `widen`. */
  function FilterText(filters: seq<Filter>): string
  {
    if filters == [] then "" else EntryText(filters[0]) + FilterText(filters[1..])
  }

  /** `get_filter_utf16`: the loop builds the string entry by entry, then widens it. */
  method GetFilterUtf16(filters: seq<Filter>) returns (w: seq<u16>)
    ensures w == Widen(FilterText(filters))
  {
    var s := "";
    for i := 0 to |filters|
      invariant s == FilterText(filters[..i])
    {
      var entry := filters[i];
      s := s + entry.name;
      s := s + "\0";
      var extensions := GlobList(entry.extensions);
      s := s + extensions;
      s := s + "\0";
      assert filters[..i + 1] == filters[..i] + [entry];
      FilterTextAppend(filters[..i], [entry]);
    }
    assert filters[..|filters|] == filters;
    w := Widen(s);
  }

  /** Filters appear in the caller's order: the encoding of a concatenation is the concatenation. */
  lemma {:induction false} FilterTextAppend(a: seq<Filter>, b: seq<Filter>)
    ensures FilterText(a + b) == FilterText(a) + FilterText(b)
  {
    if a == [] {
      assert a + b == b;
    } else {
      assert (a + b)[1..] == a[1..] + b;
      FilterTextAppend(a[1..], b);
    }
  }

  /** Names and extensions are plain text without U+0000. */
  predicate NulFree(filters: seq<Filter>)
  {
    forall i :: 0 <= i < |filters| ==>
      '\0' !in filters[i].name &&
      forall j :: 0 <= j < |filters[i].extensions| ==> '\0' !in filters[i].extensions[j]
  }

  /** What the common dialog needs to read every filter: NUL-free text and non-empty names. */
  predicate WellFormed(filters: seq<Filter>)
  {
    NulFree(filters) && forall i :: 0 <= i < |filters| ==> filters[i].name != ""
  }

  lemma {:induction false} GlobListNulFree(exts: seq<string>)
    requires forall j :: 0 <= j < |exts| ==> '\0' !in exts[j]
    ensures '\0' !in GlobList(exts)
  {
    if |exts| > 1 {
      GlobListNulFree(exts[1..]);
    }
  }

  /** The wide form of one entry: name, NUL, patterns, NUL. */
  lemma EncodeEntry(f: Filter, rest: string)
    ensures Encode(EntryText(f) + rest)
         == Encode(f.name) + [0] + Encode(GlobList(f.extensions)) + [0] + Encode(rest)
  {
    EncodeFields(f.name, GlobList(f.extensions), rest);
  }

  /** Two fields, each closed by a NUL, encode field by field. */
  lemma EncodeFields(a: string, b: string, rest: string)
    ensures Encode(a + "\0" + b + "\0" + rest) == Encode(a) + [0] + Encode(b) + [0] + Encode(rest)
  {
    assert a + "\0" + b + "\0" + rest == a + ("\0" + (b + ("\0" + rest)));
    EncodeAppend(a, "\0" + (b + ("\0" + rest)));
    EncodeAppend("\0", b + ("\0" + rest));
    EncodeAppend(b, "\0" + rest);
    EncodeAppend("\0", rest);
    assert Encode("\0") == [0];
  }

  /** A filter with no extensions contributes its name followed by two NUL units. */
  lemma NoExtensionsEntry(name: string, rest: string)
    ensures Encode(EntryText(Filter(name, [])) + rest) == Encode(name) + [0, 0] + Encode(rest)
  {
    EncodeEntry(Filter(name, []), rest);
  }

  /** Number of NUL units in a wide string. */
  function ZeroCount(u: seq<u16>): nat
  {
    if u == [] then 0 else (if u[0] == 0 then 1 else 0) + ZeroCount(u[1..])
  }

  lemma {:induction false} ZeroCountAppend(a: seq<u16>, b: seq<u16>)
    ensures ZeroCount(a + b) == ZeroCount(a) + ZeroCount(b)
  {
    if a == [] {
      assert a + b == b;
    } else {
      assert (a + b)[1..] == a[1..] + b;
      ZeroCountAppend(a[1..], b);
    }
  }

  lemma {:induction false} ZeroCountOfZeroFree(u: seq<u16>)
    requires 0 !in u
    ensures ZeroCount(u) == 0
  {
    if u != [] {
      ZeroCountOfZeroFree(u[1..]);
    }
  }

  /** Two NUL units per filter, before `widen`'s terminator. */
  lemma {:induction false} FilterTextZeros(filters: seq<Filter>)
    requires NulFree(filters)
    ensures ZeroCount(Encode(FilterText(filters))) == 2 * |filters|
  {
    if filters != [] {
      var f := filters[0];
      var g := GlobList(f.extensions);
      assert NulFree(filters[1..]);
      FilterTextZeros(filters[1..]);
      EncodeEntry(f, FilterText(filters[1..]));
      GlobListNulFree(f.extensions);
      EncodeHasZero(f.name);
      EncodeHasZero(g);
      ZeroCountOfZeroFree(Encode(f.name));
      ZeroCountOfZeroFree(Encode(g));
      ZeroCountAppend(Encode(f.name), [0]);
      ZeroCountAppend(Encode(f.name) + [0], Encode(g));
      ZeroCountAppend(Encode(f.name) + [0] + Encode(g), [0]);
      ZeroCountAppend(Encode(f.name) + [0] + Encode(g) + [0], Encode(FilterText(filters[1..])));
    }
  }

  /**
   * With NUL-free names and extensions, n filters produce exactly 2n + 1 NUL
   * units, and a non-empty list ends in a double NUL.
   */
  lemma FilterZeros(filters: seq<Filter>)
    requires NulFree(filters)
    ensures var w := Widen(FilterText(filters));
      ZeroCount(w) == 2 * |filters| + 1 &&
      (filters != [] ==> w[|w| - 2] == 0 && w[|w| - 1] == 0)
  {
    var e := Encode(FilterText(filters));
    FilterTextZeros(filters);
    ZeroCountAppend(e, [0]);
    if filters != [] {
      var f := filters[0];
      EncodeEntry(f, FilterText(filters[1..]));
      FilterTextEndsInNul(filters);
    }
  }

  lemma {:induction false} FilterTextEndsInNul(filters: seq<Filter>)
    requires filters != []
    ensures var e := Encode(FilterText(filters)); |e| > 0 && e[|e| - 1] == 0
  {
    var f := filters[0];
    EncodeEntry(f, FilterText(filters[1..]));
    if filters[1..] != [] {
      FilterTextEndsInNul(filters[1..]);
    } else {
      assert Encode(FilterText(filters[1..])) == [];
    }
  }

  /** One description/pattern pair as the dialog reads it from the buffer. */
  datatype FilterPair = FilterPair(description: seq<u16>, pattern: seq<u16>)

  /**
   * How the common dialog reads `lpstrFilter`: NUL-terminated description and
   * pattern strings, pair after pair, until an empty description (the second
   * NUL of the closing double NUL) or the end of the units.
   */
  function ReadFilterList(u: seq<u16>): seq<FilterPair>
    decreases |u|
  {
    var d := UntilNul(u);
    if d == [] || |d| == |u| then []
    else
      var rest := u[|d| + 1..];
      var p := UntilNul(rest);
      if |p| == |rest| then []
      else [FilterPair(d, p)] + ReadFilterList(rest[|p| + 1..])
  }

  /** The pairs the caller's filters stand for, in the caller's order. */
  function Pairs(filters: seq<Filter>): seq<FilterPair>
  {
    if filters == [] then []
    else [FilterPair(Encode(filters[0].name), Encode(GlobList(filters[0].extensions)))] + Pairs(filters[1..])
  }

  /** Reading one well-terminated pair consumes it and continues after its second NUL. */
  lemma ReadFilterListStep(d: seq<u16>, p: seq<u16>, tail: seq<u16>)
    requires d != [] && 0 !in d && 0 !in p
    ensures ReadFilterList(d + [0] + p + [0] + tail) == [FilterPair(d, p)] + ReadFilterList(tail)
  {
    var u := d + [0] + p + [0] + tail;
    assert u == d + ([0] + p + [0] + tail);
    UntilNulOfZeroFree(d, [0] + p + [0] + tail);
    var rest := u[|d| + 1..];
    assert rest == p + ([0] + tail);
    UntilNulOfZeroFree(p, [0] + tail);
    assert rest[|p| + 1..] == tail;
  }

  /** The wide filter list is the first entry's pair followed by the rest of the list. */
  lemma WidenFilterText(filters: seq<Filter>)
    requires filters != []
    ensures Widen(FilterText(filters))
         == Encode(filters[0].name) + [0] + Encode(GlobList(filters[0].extensions)) + [0]
            + Widen(FilterText(filters[1..]))
  {
    EncodeEntry(filters[0], FilterText(filters[1..]));
  }

  /**
   * The dialog reads back exactly the caller's filters, in order, from what
   * `get_filter_utf16` builds.
   */
  lemma {:induction false} ReadFilterListRoundTrip(filters: seq<Filter>)
    requires WellFormed(filters)
    ensures ReadFilterList(Widen(FilterText(filters))) == Pairs(filters)
  {
    if filters == [] {
      assert Widen(FilterText(filters)) == [0];
    } else {
      var f := filters[0];
      WidenFilterText(filters);
      GlobListNulFree(f.extensions);
      EncodeHasZero(f.name);
      EncodeHasZero(GlobList(f.extensions));
      EncodeLength(f.name);
      ReadFilterListStep(Encode(f.name), Encode(GlobList(f.extensions)), Widen(FilterText(filters[1..])));
      assert WellFormed(filters[1..]);
      ReadFilterListRoundTrip(filters[1..]);
    }
  }
}
