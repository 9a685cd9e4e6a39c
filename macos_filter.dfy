/**
 * `get_filter`, written identically in src/macos/pick_files.rs and
 * src/macos/save_file.rs: every extension of every filter, in order, that
 * `UTType::typeWithFilenameExtension` resolves; the others are dropped.
 * The resolver is the map `registry` of the extensions it knows.
 */
module MacFilter {

  import opened DialogTypes
  import opened AppKit

  /** All extensions, filter after filter, each filter's in its own order. */
  function AllExtensions(filters: seq<Filter>): seq<string>
  {
    if filters == [] then [] else filters[0].extensions + AllExtensions(filters[1..])
  }

  /** The types of the resolvable extensions, in order. */
  function Resolve(exts: seq<string>, registry: map<string, UTType>): seq<UTType>
  {
    if exts == [] then []
    else (if exts[0] in registry then [registry[exts[0]]] else []) + Resolve(exts[1..], registry)
  }

  /** `get_filter`: two nested loops pushing every type that resolves. */
  method GetFilter(filters: seq<Filter>, registry: map<string, UTType>) returns (types: seq<UTType>)
    ensures types == Resolve(AllExtensions(filters), registry)
  {
    types := [];
    for i := 0 to |filters|
      invariant types == Resolve(AllExtensions(filters[..i]), registry)
    {
      var entry := filters[i];
      ghost var before := AllExtensions(filters[..i]);
      assert before + entry.extensions[..0] == before;
      for j := 0 to |entry.extensions|
        invariant types == Resolve(before + entry.extensions[..j], registry)
      {
        var ext := entry.extensions[j];
        if ext in registry {
          types := types + [registry[ext]];
        }
        assert entry.extensions[..j + 1] == entry.extensions[..j] + [ext];
        assert before + entry.extensions[..j + 1] == (before + entry.extensions[..j]) + [ext];
        ResolveAppend(before + entry.extensions[..j], [ext], registry);
      }
      assert entry.extensions[..|entry.extensions|] == entry.extensions;
      assert filters[..i + 1] == filters[..i] + [entry];
      AllExtensionsAppend(filters[..i], [entry]);
      assert AllExtensions([entry]) == entry.extensions;
    }
    assert filters[..|filters|] == filters;
  }

  lemma {:induction false} AllExtensionsAppend(a: seq<Filter>, b: seq<Filter>)
    ensures AllExtensions(a + b) == AllExtensions(a) + AllExtensions(b)
  {
    if a == [] {
      assert a + b == b;
    } else {
      assert (a + b)[1..] == a[1..] + b;
      AllExtensionsAppend(a[1..], b);
    }
  }

  /** Resolution keeps order across any split of the extension list. */
  lemma {:induction false} ResolveAppend(a: seq<string>, b: seq<string>, registry: map<string, UTType>)
    ensures Resolve(a + b, registry) == Resolve(a, registry) + Resolve(b, registry)
  {
    if a == [] {
      assert a + b == b;
    } else {
      assert (a + b)[1..] == a[1..] + b;
      ResolveAppend(a[1..], b, registry);
    }
  }

  /**
   * Only resolvable extensions are kept: never more types than extensions,
   * and exactly one per extension, in order, when every extension resolves.
   */
  lemma {:induction false} ResolveBounds(exts: seq<string>, registry: map<string, UTType>)
    ensures |Resolve(exts, registry)| <= |exts|
    ensures (forall i :: 0 <= i < |exts| ==> exts[i] in registry) ==>
      |Resolve(exts, registry)| == |exts| &&
      forall i :: 0 <= i < |exts| ==> Resolve(exts, registry)[i] == registry[exts[i]]
  {
    if exts != [] {
      ResolveBounds(exts[1..], registry);
    }
  }

  /** Every type kept is the type of one of the extensions. */
  lemma {:induction false} ResolveFromExtensions(exts: seq<string>, registry: map<string, UTType>, k: nat)
    requires k < |Resolve(exts, registry)|
    ensures exists e :: e in exts && e in registry && registry[e] == Resolve(exts, registry)[k]
  {
    if exts[0] in registry && k == 0 {
      assert exts[0] in exts;
    } else {
      var k' := if exts[0] in registry then k - 1 else k;
      ResolveFromExtensions(exts[1..], registry, k');
      var e :| e in exts[1..] && e in registry && registry[e] == Resolve(exts[1..], registry)[k'];
      assert e in exts;
    }
  }
}
